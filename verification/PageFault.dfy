// The Mik-64 kernel's page-fault handler from its first instruction to eret, in
// the running kernel, with a TLB or without.

module PageFault {
  import opened Bits
  import opened Mik64Mmu
  import opened Mik64Tlb
  import opened Mik64Cpu
  import opened Mik64Bisim
  import opened FlatCode
  import opened IdentityMap
  import opened SupervisorCode
  import opened KernelCode
  import opened ProcessSpace
  import Index = PteIndex
  import Pool = PagePool

  const PTE_SCRATCH := 0x70_0058
  const REGION_MASK := 0xFF_FFE0_0000

  // ---- The code ---------------------------------------------------------------------------

  /** The checks at the start; q is the label pf_print. */
  function CheckCode(h: nat, q: nat): (code: seq<Ins>)
    ensures |code| == 6
  {
    [Ins(LI, 1, 0, 0, 1), Ins(BNE, 0, 10, 1, (q - (h + 8)) / 8),
     Ins(LI, 3, 0, 0, REGION_MASK), Ins(AND, 1, 11, 3, 0), Ins(LI, 3, 0, 0, USER_VA), Ins(BNE, 0, 1, 3, (q - (h + 40)) / 8)]
  }

  /** From pf_gotidx, at c, on: the page taken and mapped; al is the label alloc_page. */
  function MapCode(c: nat, al: nat): (code: seq<Ins>)
    ensures |code| == 9
  {
    [Ins(STORE64, 0, 0, 3, PTE_SCRATCH), Ins(LI, 15, 0, 0, c + 24), Ins(JMP, 0, 0, 0, (al - (c + 16)) / 8),
     Ins(LOAD64, 3, 0, 0, PTE_SCRATCH), Ins(LI, 1, 0, 0, 7), Ins(OR, 2, 2, 1, 0), Ins(STORE64, 0, 3, 2, 0),
     Ins(SFENCE, 0, 0, 0, 0), Ins(ERET, 0, 0, 0, 0)]
  }

  function HandlerCode(h: nat, q: nat, al: nat): (code: seq<Ins>)
    ensures |code| == 24
  {
    CheckCode(h, q) + Index.IndexCode() + MapCode(h + 120, al)
  }

  /** The handler at h and alloc_page at al lie in memory, away from the state page and from PT4. */
  ghost predicate HandlerAt(mem: Ram8, h: nat, q: nat, al: nat, pt4: nat, v: Env) {
    && Code(mem, h, HandlerCode(h, q, al), v) && Code(mem, al, Pool.AllocCode(), v)
    && Apart(h, 192, Pool.NEXT_PAGE, 4096) && Apart(h, 192, pt4, 4096)
    && Apart(al, 72, Pool.NEXT_PAGE, 4096) && Apart(al, 72, pt4, 4096)
    && (q - h) % 8 == 0 && (al - h) % 8 == 0 && q < KERNEL_TOP && Pool.StateOk(v)
  }

  lemma HandlerParts(mem: Ram8, h: nat, q: nat, al: nat, pt4: nat, v: Env)
    requires HandlerAt(mem, h, q, al, pt4, v)
    ensures Code(mem, h, CheckCode(h, q), v) && Code(mem, h + 48, Index.IndexCode(), v) && Code(mem, h + 120, MapCode(h + 120, al), v)
    ensures h + 192 <= v.top <= RAM_SIZE && WordOk(PTE_SCRATCH, v) && Apart(h, 192, Pool.NEXT_PAGE, 4096)
  {
    hide At, Listing, Index.IndexCode, CheckCode, MapCode;
    var a, b, c := CheckCode(h, q), Index.IndexCode(), MapCode(h + 120, al);
    assert [] + a + (b + c) == HandlerCode(h, q, al);
    assert a + b + c == (a + b) + c + [];
    CodePart(mem, h, [], a, b + c, v);
    CodePart(mem, h, a, b, c, v);
    CodePart(mem, h, a + b, c, [], v);
  }

  /** A store to the state page or into PT4 leaves the code. */
  lemma HandlerStored(mem: Ram8, h: nat, q: nat, al: nat, pt4: nat, v: Env, a: nat, w: Word)
    requires HandlerAt(mem, h, q, al, pt4, v) && a + 8 <= RAM_SIZE
    requires (Pool.NEXT_PAGE <= a && a + 8 <= Pool.NEXT_PAGE + 4096) || (pt4 <= a && a + 8 <= pt4 + 4096)
    ensures HandlerAt(Write64(mem, a, w), h, q, al, pt4, v)
  {
    hide Write64, HandlerCode, Pool.AllocCode, Listing;
    CodeKept(mem, h, HandlerCode(h, q, al), v, a, w);
    CodeKept(mem, al, Pool.AllocCode(), v, a, w);
  }

  // ---- The checks ------------------------------------------------------------------------------

  /** The mask test accepts exactly the 8 to 10 MiB region, for addresses below 2^40. */
  lemma RegionTest(va: nat)
    ensures va < 0x100_0000_0000 ==> (And(va, REGION_MASK) == USER_VA <==> USER_VA <= va < USER_TOP)
  {
    hide And;
    AndRegion(va);
    var r := va / 0x20_0000;
    assert va < 0x100_0000_0000 ==> r < 0x8_0000;
    assert 0x20_0000 * (r % 0x8_0000) == USER_VA <==> r % 0x8_0000 == 4;
  }

  /** The mask ignores bits 40 and up: an address beyond 2^40 passes the test too. */
  lemma RegionTestWraps()
    ensures And(0x100_0080_0000, REGION_MASK) == USER_VA && !(0x100_0080_0000 < USER_TOP)
  {
    hide And;
    AndRegion(0x100_0080_0000);
  }

  /** What the handler looks at: the fault code and the region of the address. */
  predicate Demand(regs: Regs16) { regs[10] == 1 && And(regs[11], REGION_MASK) == USER_VA }

  /** m with registers 1 and 3 as in e. */
  predicate Tested(m: Machine, e: Machine, pc: nat) {
    e.pc == pc && e == m.(pc := e.pc, regs := m.regs[1 := e.regs[1]][3 := e.regs[3]])
  }

  lemma ChecksGlide(m: Machine, h: nat, q: nat, v: Env) returns (n: nat, e: Machine)
    requires Flat(m) && m.pc == h && Code(m.mem, h, CheckCode(h, q), v) && (q - h) % 8 == 0 && q < KERNEL_TOP
    ensures n <= 6 && Glides(m, n, e, v) && Flat(e) && Tested(m, e, if Demand(m.regs) then h + 48 else q)
  {
    hide Step, Code, Plus, Glides, And;
    var c := CheckCode(h, q);
    GlidesRefl(m, v);
    ThenReg(m, 0, m, h, c, 0, v);
    var m1 := Moved(m, h + 8, 1, 1);
    PlusSmall(h + 8, q - (h + 8));
    PlusSmall(h + 8, 8);
    ThenJump(m, 1, m1, h, c, 1, v);
    if m.regs[10] != 1 {
      n, e := 2, m1.(pc := q);
    } else {
      var m2 := m1.(pc := h + 16);
      ThenReg(m, 2, m2, h, c, 2, v);
      var m3 := Moved(m2, h + 24, 3, REGION_MASK);
      ThenReg(m, 3, m3, h, c, 3, v);
      var r := And(m.regs[11], REGION_MASK);
      AndBound(m.regs[11], REGION_MASK);
      var m4 := Moved(m3, h + 32, 1, r);
      ThenReg(m, 4, m4, h, c, 4, v);
      var m5 := Moved(m4, h + 40, 3, USER_VA);
      PlusSmall(h + 40, q - (h + 40));
      PlusSmall(h + 40, 8);
      ThenJump(m, 5, m5, h, c, 5, v);
      n, e := 6, m5.(pc := if r == USER_VA then h + 48 else q);
    }
  }

  /** A not-present fault in the user region goes on to the index computation; anything else goes to
      pf_print.  Only x1 and x3 are used, and no memory but leaf marks. */
  lemma ChecksRun(m: Machine, h: nat, q: nat, v: Env)
    requires Kern(m, v) && m.pc == h && Code(m.mem, h, CheckCode(h, q), v) && (q - h) % 8 == 0 && q < KERNEL_TOP
    ensures exists n: nat, d: Machine ::
      && n <= 6 && Leads(m, n, d, v.cached) && Kern(d, v) && d.pc == (if Demand(m.regs) then h + 48 else q)
      && d.regs == m.regs[1 := d.regs[1]][3 := d.regs[3]] && SameModes(m, d) && Alike(m.mem, d.mem, v)
  {
    hide Code, Glides, Kern, Alike, CheckCode, Demand;
    var s := Shadow(m);
    ShadowSims(m, v);
    var n, e := ChecksGlide(s, h, q, v);
    Carries(m, s, n, e, v);
    var d: Machine :| Lands(m, n, d, e, v);
    assert n <= 6 && Leads(m, n, d, v.cached);
  }

  // ---- The handler on the flat machine -----------------------------------------------------------

  /** The page handed out, and what the allocator's words hold afterwards. */
  function PageOf(pages: seq<nat>, next: Word): nat { if pages == [] then next else pages[0] }
  function RestOf(pages: seq<nat>): seq<nat> { if pages == [] then [] else pages[1..] }
  function NextOf(pages: seq<nat>, next: Word): Word { if pages == [] then Plus(next, 4096) else next }

  function Taken(mem: Ram8, pages: seq<nat>, next: Word): Ram8
    requires pages != [] ==> pages[0] + 8 <= RAM_SIZE
  {
    if pages == [] then Write64(mem, Pool.NEXT_PAGE, Plus(next, 4096))
    else Write64(mem, Pool.FREE_HEAD, Read64(mem, pages[0]))
  }

  /** The entry for a page, for the user. */
  function UserEntryOf(page: Word): Word { OrWord(page, 7) }

  /** Memory after the handler: the entry's address set aside, a page taken, the entry filled in. */
  function MappedMem(mem: Ram8, pages: seq<nat>, next: Word, e: nat): Ram8
    requires (pages != [] ==> pages[0] + 8 <= RAM_SIZE) && e + 8 <= RAM_SIZE
  {
    Write64(Taken(Write64(mem, PTE_SCRATCH, e), pages, next), e, UserEntryOf(PageOf(pages, next)))
  }

  /** In the handler after n steps: code, tables and pool stand, the entry is still absent. */
  ghost predicate Mid(m: Machine, n: nat, s: Machine, pc: nat, h: nat, q: nat, al: nat, t: Tables, e: nat, v: Env) {
    && Glides(m, n, s, v) && Flat(s) && s.pc == pc && HandlerAt(s.mem, h, q, al, t.pt4, v)
    && Space(s.mem, t) && v.tables == PagesOf(t) && t.pt4 + 4096 <= v.top
    && Root(s) == t.pml4 && EntryIn(t, e) && Absent(s.mem, e)
  }

  /** A store of the handler to the state page. */
  lemma StateStore(mem: Ram8, root: nat, h: nat, q: nat, al: nat, t: Tables, e: nat, v: Env, a: nat, w: Word)
    requires HandlerAt(mem, h, q, al, t.pt4, v) && Space(mem, t) && v.tables == PagesOf(t) && EntryIn(t, e) && Absent(mem, e)
    requires Pool.NEXT_PAGE <= a && a + 8 <= Pool.NEXT_PAGE + 4096 && a % 8 == 0
    ensures a + 8 <= v.top <= RAM_SIZE && Harmless(mem, root, a, v.tables)
    ensures var mem' := Write64(mem, a, w);
      HandlerAt(mem', h, q, al, t.pt4, v) && Space(mem', t) && Absent(mem', e)
  {
    hide Read64, Write64, Space, PagesOf, Fillable, PteP, HandlerAt;
    StateFits(mem, h, q, al, t.pt4, v);
    OnState(a);
    HandlerStored(mem, h, q, al, t.pt4, v, a, w);
    SpaceStored(mem, t, a, w);
    EntryOff(mem, t, e, v);
    ReadApart(mem, a, w, e);
  }

  lemma StateFits(mem: Ram8, h: nat, q: nat, al: nat, pt4: nat, v: Env)
    requires HandlerAt(mem, h, q, al, pt4, v)
    ensures Pool.NEXT_PAGE + 4096 <= v.top <= RAM_SIZE && Pool.NEXT_PAGE / 4096 !in v.tables && Pool.StateOk(v)
  {}

  lemma OnState(a: nat)
    requires Pool.NEXT_PAGE <= a && a + 8 <= Pool.NEXT_PAGE + 4096
    ensures a / 4096 == Pool.NEXT_PAGE / 4096
  {}

  lemma EntryOff(mem: Ram8, t: Tables, e: nat, v: Env)
    requires Space(mem, t) && v.tables == PagesOf(t) && EntryIn(t, e) && Pool.NEXT_PAGE / 4096 !in v.tables
    ensures Apart(e, 8, Pool.NEXT_PAGE, 4096) && e / 4096 in v.tables
  {
    SpaceOk(mem, t);
    PagesApart(t.pt4, Pool.NEXT_PAGE);
    assert e / 4096 == t.pt4 / 4096;
  }

  lemma EntryFits(mem: Ram8, t: Tables, e: nat, h: nat, q: nat, al: nat, v: Env)
    requires HandlerAt(mem, h, q, al, t.pt4, v) && EntryIn(t, e) && t.pt4 + 4096 <= v.top
    ensures e + 8 <= v.top <= RAM_SIZE && Apart(h + 120, 72, e, 8)
  {
    hide At;
  }

  /** Registers at alloc_page. */
  lemma StashGlides(m: Machine, n: nat, s: Machine, h: nat, q: nat, al: nat, t: Tables, e: nat, v: Env)
    requires Mid(m, n, s, h + 120, h, q, al, t, e, v) && s.regs[3] == e
    ensures h + 192 <= RAM_SIZE && e < RAM_SIZE
    ensures var d := s.(pc := al, regs := s.regs[15 := h + 144], mem := Write64(s.mem, PTE_SCRATCH, e));
      Mid(m, n + 3, d, al, h, q, al, t, e, v)
  {
    hide Step, Code, Read64, Write64, Plus, Glides, Root, Harmless, HandlerAt, Space, PagesOf, Absent;
    HandlerParts(s.mem, h, q, al, t.pt4, v);
    var c := MapCode(h + 120, al);
    assert AlOk(h, q, al) by { AlFits(s.mem, h, q, al, t.pt4, v); }
    StateStore(s.mem, Root(s), h, q, al, t, e, v, PTE_SCRATCH, e);
    ThenStore(m, n, s, h + 120, c, 0, PTE_SCRATCH, v);
    var m1 := Stored(s, PTE_SCRATCH, e);
    ThenReg(m, n + 1, m1, h + 120, c, 1, v);
    var m2 := Moved(m1, h + 136, 15, h + 144);
    ThenJump(m, n + 2, m2, h + 120, c, 2, v);
    PlusSmall(h + 136, al - (h + 136));
    assert m2.(pc := al) == s.(pc := al, regs := s.regs[15 := h + 144], mem := Write64(s.mem, PTE_SCRATCH, e));
    RootKept(s, m2.(pc := al), t);
  }

  predicate AlOk(h: nat, q: nat, al: nat) { (q - h) % 8 == 0 && (al - h) % 8 == 0 && al + 72 <= RAM_SIZE && h + 192 <= RAM_SIZE }

  lemma AlFits(mem: Ram8, h: nat, q: nat, al: nat, pt4: nat, v: Env)
    requires HandlerAt(mem, h, q, al, pt4, v)
    ensures AlOk(h, q, al)
  {
    hide At;
  }

  lemma RootKept(s: Machine, d: Machine, t: Tables)
    requires Root(s) == t.pml4 && d.csrs == s.csrs
    ensures Root(d) == t.pml4
  {}

  /** alloc_page, either way: the page in x2. */
  lemma TakeGlides(m: Machine, n: nat, s: Machine, h: nat, q: nat, al: nat, t: Tables, e: nat, v: Env, pages: seq<nat>, next: Word)
    returns (k: nat, d: Machine)
    requires Mid(m, n, s, al, h, q, al, t, e, v) && Pool.PoolIs(s.mem, pages, next, v)
    ensures pages != [] ==> pages[0] + 8 <= RAM_SIZE
    ensures k <= 6 && Mid(m, n + k, d, s.regs[15], h, q, al, t, e, v)
    ensures d.regs == s.regs[2 := PageOf(pages, next)][3 := d.regs[3]] && d == s.(pc := d.pc, regs := d.regs, mem := Taken(s.mem, pages, next))
    ensures Pool.PoolIs(d.mem, RestOf(pages), NextOf(pages, next), v)
  {
    hide Code, Read64, Write64, Plus, Glides, Root, Harmless, Space, PagesOf, Absent, Pool.List;
    StateFits(s.mem, h, q, al, t.pt4, v);
    var w: Word;
    if pages == [] {
      k, w := 6, Plus(next, 4096);
      Pool.BumpGlides(s, al, next, v);
      d := Pool.Bumped(s, next);
      StateStore(s.mem, Root(s), h, q, al, t, e, v, Pool.NEXT_PAGE, w);
    } else {
      Pool.PopGlides(s, al, pages, next, v);
      Pool.PopList(s.mem, pages, next, v);
      k, w := 5, Read64(s.mem, pages[0]);
      d := Pool.Popped(s, pages[0], w);
      StateStore(s.mem, Root(s), h, q, al, t, e, v, Pool.FREE_HEAD, w);
    }
    GlidesThen(m, n, s, k, d, v);
    RootKept(s, d, t);
  }

  /** The entry stored, the TLB flushed: at the eret. */
  lemma MapGlides(m: Machine, n: nat, s: Machine, h: nat, q: nat, al: nat, t: Tables, e: nat, v: Env, page: Word)
    returns (d: Machine)
    requires Mid(m, n, s, h + 144, h, q, al, t, e, v) && s.regs[2] == page && Read64(s.mem, PTE_SCRATCH) == e
    ensures Glides(m, n + 5, d, v) && Flat(d) && d.pc == h + 184 && e + 8 <= RAM_SIZE
    ensures d.mem == Write64(s.mem, e, UserEntryOf(page)) && Space(d.mem, t) && HandlerAt(d.mem, h, q, al, t.pt4, v)
    ensures d.regs == s.regs[3 := e][1 := 7][2 := UserEntryOf(page)] && d.csrs == s.csrs && d.mode == s.mode && d.out == s.out
  {
    hide Step, Code, Read64, Write64, Plus, Glides, Root, Harmless, HandlerAt, Space, PagesOf, Absent, OrWord, FlushTlb;
    HandlerParts(s.mem, h, q, al, t.pt4, v);
    var c, w := MapCode(h + 120, al), UserEntryOf(page);
    assert AlOk(h, q, al) by { AlFits(s.mem, h, q, al, t.pt4, v); }
    ThenLoad(m, n, s, h + 120, c, 3, PTE_SCRATCH, v);
    var m1 := Moved(s, h + 152, 3, e);
    ThenReg(m, n + 1, m1, h + 120, c, 4, v);
    var m2 := Moved(m1, h + 160, 1, 7);
    ThenReg(m, n + 2, m2, h + 120, c, 5, v);
    var m3 := Moved(m2, h + 168, 2, w);
    RootKept(s, m3, t);
    EntryHarmless(s.mem, t, e);
    HandlerStored(s.mem, h, q, al, t.pt4, v, e, w);
    SpaceStored(s.mem, t, e, w);
    EntryFits(s.mem, t, e, h, q, al, v);
    ThenStore(m, n + 3, m3, h + 120, c, 6, e, v);
    var m4 := Stored(m3, e, w);
    ThenFence(m, n + 4, m4, h + 120, c, 7, v);
    d := FlushTlb(m4.(pc := h + 184));
    FlushKeeps(m4.(pc := h + 184));
  }

  // ---- The handler as a whole --------------------------------------------------------------------------

  /** The page-table entry of va. */
  function PteOf(t: Tables, va: Word): nat { t.pt4 + 8 * (va / 4096 % 512) }

  /** In supervisor mode on the process's tables, PT4 among them. */
  ghost predicate On(m: Machine, t: Tables, cached: bool) {
    && m.csrs[CSR_PMODE] != 0 && Root(m) == t.pml4 && Space(m.mem, t) && Holds(m.mem, t.pd + 32, t.pt4 + 3)
    && t.pt4 + 4096 <= KERNEL_TOP && (cached ==> Coherent(m))
  }

  /** What the kernel keeps for its page faults: the handler's code, the current process's slot and
      the allocator's pool. */
  ghost predicate Serves(mem: Ram8, h: nat, q: nat, al: nat, t: Tables, slot: nat, pages: seq<nat>, next: Word, v: Env) {
    t.pt4 < RAM_SIZE && HandlerAt(mem, h, q, al, t.pt4, v) && Index.Process(mem, slot, t.pt4, v) && Pool.PoolIs(mem, pages, next, v)
  }

  /** A not-present fault at va in the user region has just been delivered: code in x10, address in
      x11, and va's entry is absent. */
  ghost predicate Delivered(m: Machine, h: nat, q: nat, al: nat, t: Tables, slot: nat, pages: seq<nat>, next: Word, va: Word, cached: bool) {
    && Calm(m) && On(m, t, cached) && Serves(m.mem, h, q, al, t, slot, pages, next, EnvOf(t, cached))
    && m.pc == h && m.regs[10] == 1 && m.regs[11] == va && USER_VA <= va < USER_TOP && Absent(m.mem, PteOf(t, va))
    && SlotApart(slot, PteOf(t, va))
  }

  lemma PteOfIn(t: Tables, va: Word)
    requires t.pt4 % 4096 == 0
    ensures EntryIn(t, PteOf(t, va))
  {
    PageAligned(t.pt4, va / 4096 % 512);
  }

  /** The registers the handler leaves: x1, x2, x3 and x15 are lost. */
  function HandlerRegs(regs: Regs16, e: Word, page: Word, ret: Word): Regs16 {
    regs[1 := 7][2 := UserEntryOf(page)][3 := e][15 := ret]
  }

  lemma HandlerGlides(m: Machine, h: nat, q: nat, al: nat, t: Tables, slot: nat, pages: seq<nat>, next: Word, va: Word, v: Env)
    returns (n: nat, d: Machine)
    requires Flat(m) && Root(m) == t.pml4 && Space(m.mem, t) && t.pt4 + 4096 <= v.top && v.tables == PagesOf(t)
    requires Serves(m.mem, h, q, al, t, slot, pages, next, v)
    requires m.pc == h && m.regs[10] == 1 && m.regs[11] == va && USER_VA <= va < USER_TOP && Absent(m.mem, PteOf(t, va))
    ensures PteOf(t, va) + 8 <= RAM_SIZE && h + 184 <= RAM_SIZE && (pages != [] ==> pages[0] + 8 <= RAM_SIZE)
    ensures Glides(m, n, d, v) && Flat(d) && d.pc == h + 184
    ensures d.mem == MappedMem(m.mem, pages, next, PteOf(t, va))
    ensures d.regs == HandlerRegs(m.regs, PteOf(t, va), PageOf(pages, next), h + 144)
    ensures d.csrs == m.csrs && d.mode == m.mode && d.out == m.out
    ensures Space(d.mem, t) && HandlerAt(d.mem, h, q, al, t.pt4, v) && Pool.PoolIs(d.mem, RestOf(pages), NextOf(pages, next), v)
  {
    hide Code, Read64, Write64, Plus, Glides, Root, HandlerAt, Space, PagesOf, Absent, Pool.PoolIs, And, Flat, Index.Indexed, Index.IndexSteps,
      Index.Process, HandlerRegs, PteOf, UserEntryOf;
    var e := PteOf(t, va);
    SpaceOk(m.mem, t);
    PteOfIn(t, va);
    HandlerParts(m.mem, h, q, al, t.pt4, v);
    assert AlOk(h, q, al) && q < KERNEL_TOP by { AlFits(m.mem, h, q, al, t.pt4, v); QFits(m.mem, h, q, al, t.pt4, v); }
    RegionTest(va);
    var n1, m1 := ChecksGlide(m, h, q, v);
    IndexReached(m, n1, m1, h, v);
    Index.IndexGlides(m, n1, m1, h + 48, slot, t.pt4, v);
    var n2 := n1 + Index.IndexSteps(m1.regs[11]);
    var m2 := m1.(pc := h + 120, regs := Index.Indexed(m1.regs, t.pt4));
    IndexedRegs(m1.regs, t, va);
    RootKept(m, m2, t);
    StashGlides(m, n2, m2, h, q, al, t, e, v);
    var m3 := m2.(pc := al, regs := m2.regs[15 := h + 144], mem := Write64(m2.mem, PTE_SCRATCH, e));
    StatePool(m.mem, h, q, al, t.pt4, pages, next, v, e);
    var k, m4 := TakeGlides(m, n2 + 3, m3, h, q, al, t, e, v, pages, next);
    ReadBack(m2.mem, PTE_SCRATCH, e);
    ScratchKept(m3.mem, pages, next, e, v);
    d := MapGlides(m, n2 + 3 + k, m4, h, q, al, t, e, v, PageOf(pages, next));
    n := n2 + 3 + k + 5;
    EntryPool(m4.mem, h, q, al, t, e, RestOf(pages), NextOf(pages, next), v, PageOf(pages, next));
    FinalRegs(m.regs, m1.regs, m2.regs, m4.regs, d.regs, t, va, PageOf(pages, next), h + 144);
  }

  lemma QFits(mem: Ram8, h: nat, q: nat, al: nat, pt4: nat, v: Env)
    requires HandlerAt(mem, h, q, al, pt4, v)
    ensures q < KERNEL_TOP
  {}

  lemma IndexReached(m: Machine, n: nat, s: Machine, h: nat, v: Env)
    requires Glides(m, n, s, v) && Flat(s) && s.pc == h + 48 && s.mem == m.mem && Code(m.mem, h + 48, Index.IndexCode(), v)
    ensures Reaches(m, n, s, h + 48, Index.IndexCode(), 0, v)
  {}

  lemma IndexedRegs(regs: Regs16, t: Tables, va: Word)
    requires regs[11] == va && t.pt4 + 4096 <= RAM_SIZE
    ensures Index.Indexed(regs, t.pt4) == regs[3 := PteOf(t, va)][15 := t.pt4][1 := 0]
  {
    PlusSmall(t.pt4, 8 * (va / 4096 % 512));
  }

  lemma FinalRegs(r0: Regs16, r1: Regs16, r2: Regs16, r4: Regs16, r5: Regs16, t: Tables, va: Word, page: Word, ret: Word)
    requires r1 == r0[1 := r1[1]][3 := r1[3]] && PteOf(t, va) < RAM_SIZE && t.pt4 < RAM_SIZE
    requires r2 == r1[3 := PteOf(t, va)][15 := t.pt4][1 := 0] && r4 == r2[15 := ret][2 := page][3 := r4[3]]
    requires r5 == r4[3 := PteOf(t, va)][1 := 7][2 := UserEntryOf(page)]
    ensures r5 == HandlerRegs(r0, PteOf(t, va), page, ret)
  {
    hide PteOf, UserEntryOf;
  }

  lemma StatePool(mem: Ram8, h: nat, q: nat, al: nat, pt4: nat, pages: seq<nat>, next: Word, v: Env, e: Word)
    requires HandlerAt(mem, h, q, al, pt4, v) && Pool.PoolIs(mem, pages, next, v)
    ensures Pool.PoolIs(Write64(mem, PTE_SCRATCH, e), pages, next, v)
  {
    hide Pool.PoolIs, Write64;
    Pool.PoolStored(mem, pages, next, v, PTE_SCRATCH, e);
  }

  lemma EntryPool(mem: Ram8, h: nat, q: nat, al: nat, t: Tables, e: nat, pages: seq<nat>, next: Word, v: Env, page: Word)
    requires HandlerAt(mem, h, q, al, t.pt4, v) && Pool.PoolIs(mem, pages, next, v) && Space(mem, t) && EntryIn(t, e)
    requires v.tables == PagesOf(t)
    ensures e + 8 <= RAM_SIZE && Pool.PoolIs(Write64(mem, e, UserEntryOf(page)), pages, next, v)
  {
    hide Pool.PoolIs, Write64, Space, UserEntryOf, HandlerAt;
    SpaceOk(mem, t);
    StateFits(mem, h, q, al, t.pt4, v);
    EntryOff(mem, t, e, v);
    Pool.PoolStored(mem, pages, next, v, e, UserEntryOf(page));
  }

  /** Taking a page leaves the scratch word. */
  lemma ScratchKept(mem0: Ram8, pages: seq<nat>, next: Word, e: Word, v: Env)
    requires (pages != [] ==> pages[0] + 8 <= RAM_SIZE) && Read64(mem0, PTE_SCRATCH) == e
    ensures Read64(Taken(mem0, pages, next), PTE_SCRATCH) == e
  {
    hide Read64, Write64, Plus;
    if pages == [] {
      ReadApart(mem0, Pool.NEXT_PAGE, Plus(next, 4096), PTE_SCRATCH);
    } else {
      ReadApart(mem0, Pool.FREE_HEAD, Read64(mem0, pages[0]), PTE_SCRATCH);
    }
  }

  /** What the handler returns to: the interrupted program in its mode; the entry filled in with P, W
      and U, the pool one page shorter, four words written and nothing else but leaf marks; and the
      tables, the code and the pool as the next fault needs them. */
  ghost predicate Mapped(m: Machine, d: Machine, h: nat, q: nat, al: nat, t: Tables, slot: nat, pages: seq<nat>, next: Word, va: Word, cached: bool) {
    && var e, page, v := PteOf(t, va), PageOf(pages, next), EnvOf(t, cached);
    && e + 8 <= RAM_SIZE && page < 0x1_0000_0000_0000_0000 && h + 144 < 0x1_0000_0000_0000_0000
    && (pages != [] ==> pages[0] + 8 <= RAM_SIZE)
    && d.pc == m.mode.epc && d.mode == Mode(m.mode.prevUser, m.mode.prevUser, true, m.mode.epc)
    && d.csrs == m.csrs && d.out == m.out && d.regs == HandlerRegs(m.regs, e, page, h + 144)
    && Read64(d.mem, e) == UserEntryOf(page) && Alike(MappedMem(m.mem, pages, next, e), d.mem, v)
    && On(d, t, cached) && Serves(d.mem, h, q, al, t, slot, RestOf(pages), NextOf(pages, next), v)
  }

  lemma PteOfFits(t: Tables, va: Word)
    requires TablesOk(t)
    ensures PteOf(t, va) + 8 <= RAM_SIZE && EntryIn(t, PteOf(t, va)) && Apart(PteOf(t, va), 8, t.pt, 0x4000)
  {
    PteOfIn(t, va);
  }

  /** The handler runs to its eret, whatever page it faulted on and with a TLB or without: the
      faulting instruction is about to be retried in its own mode. */
  lemma HandlerMaps(m: Machine, h: nat, q: nat, al: nat, t: Tables, slot: nat, pages: seq<nat>, next: Word, va: Word, cached: bool)
    requires Delivered(m, h, q, al, t, slot, pages, next, va, cached)
    ensures exists n: nat, d: Machine :: Leads(m, n, d, cached) && Mapped(m, d, h, q, al, t, slot, pages, next, va, cached)
  {
    hide Code, Read64, Write64, Glides, Root, HandlerAt, Space, PagesOf, Absent, Pool.PoolIs, HandlerRegs, PteOf, UserEntryOf, Paged,
      Alike, MappedMem, Index.Process, Step, Holds, Coherent, EnvOf;
    var v := EnvOf(t, cached);
    EnvFacts(t, cached);
    SpaceOk(m.mem, t);
    PteOfFits(t, va);
    SpacePaged(m, t, cached);
    var s := Shadow(m);
    ShadowSims(m, v);
    RootShadow(m, s);
    var n, e := HandlerGlides(s, h, q, al, t, slot, pages, next, va, v);
    Carries(m, s, n, e, v);
    var d0: Machine :| Lands(m, n, d0, e, v);
    var d := Returns(d0, e, h, q, al, t, v);
    LeadsRefl(d, cached);
    LeadsStep(d0, d, 0, d, cached);
    LeadsThen(m, n, d0, 1, d, cached);
    Aftermath(m, d, h, q, al, t, slot, pages, next, va, cached);
  }

  lemma EnvFacts(t: Tables, cached: bool)
    ensures var v := EnvOf(t, cached);
      v.top == KERNEL_TOP && v.lo == t.pt && v.hi == t.pt + 0x4000 && v.tables == PagesOf(t) && v.cached == cached
  {}

  lemma EretWord(h: nat, al: nat)
    ensures MapCode(h + 120, al)[8] == Ins(ERET, 0, 0, 0, 0)
  {}

  /** The eret. */
  lemma Returns(d0: Machine, e: Machine, h: nat, q: nat, al: nat, t: Tables, v: Env) returns (d: Machine)
    requires Sim(d0, e, v) && e.pc == h + 184 && HandlerAt(e.mem, h, q, al, t.pt4, v)
    ensures !d0.halted && Step(d0, v.cached) == Ok(d)
    ensures d.pc == d0.mode.epc && d.mode == Mode(d0.mode.prevUser, d0.mode.prevUser, true, d0.mode.epc) && d.regs == d0.regs
    ensures d.csrs == d0.csrs && d.out == d0.out && Alike(e.mem, d.mem, v) && (d0.csrs[CSR_PMODE] != 0 ==> Paged(d, v))
  {
    hide Code, Paged, Alike, HandlerAt, Step, At;
    EretWord(h, al);
    HandlerParts(e.mem, h, q, al, t.pt4, v);
    CodeAlike(e.mem, d0.mem, h + 120, MapCode(h + 120, al), v);
    hide MapCode;
    Listed(d0.mem, h + 120, MapCode(h + 120, al), 8, v);
    KernEret(d0, Ins(ERET, 0, 0, 0, 0), v);
    d := Step(d0, v.cached).m;
    AlikeTrans(e.mem, d0.mem, d.mem, v);
  }

  /** Everything stands for the next fault. */
  lemma Aftermath(m: Machine, d: Machine, h: nat, q: nat, al: nat, t: Tables, slot: nat, pages: seq<nat>, next: Word, va: Word, cached: bool)
    requires Delivered(m, h, q, al, t, slot, pages, next, va, cached) && PteOf(t, va) + 8 <= RAM_SIZE
    requires pages != [] ==> pages[0] + 8 <= RAM_SIZE
    requires var mem', v := MappedMem(m.mem, pages, next, PteOf(t, va)), EnvOf(t, cached);
      && Space(mem', t) && HandlerAt(mem', h, q, al, t.pt4, v) && Pool.PoolIs(mem', RestOf(pages), NextOf(pages, next), v)
      && Alike(mem', d.mem, v) && d.csrs == m.csrs && (d.csrs[CSR_PMODE] != 0 ==> Paged(d, v))
    ensures On(d, t, cached) && Serves(d.mem, h, q, al, t, slot, RestOf(pages), NextOf(pages, next), EnvOf(t, cached))
    ensures Read64(d.mem, PteOf(t, va)) == UserEntryOf(PageOf(pages, next))
  {
    hide Code, Read64, Write64, Root, HandlerAt, Space, PagesOf, Absent, Pool.PoolIs, PteOf, UserEntryOf, Alike, MappedMem,
      Index.Process, Holds, Ident, TablesIn, Coherent, EnvOf;
    var e, v := PteOf(t, va), EnvOf(t, cached);
    var mem' := MappedMem(m.mem, pages, next, e);
    EnvFacts(t, cached);
    SpaceOk(m.mem, t);
    PteOfFits(t, va);
    RootKept(m, d, t);
    AlikeTables(mem', d.mem, v);
    SpaceAlike(mem', d.mem, t);
    HandlerAlike(mem', d.mem, h, q, al, t.pt4, v);
    StateFits(mem', h, q, al, t.pt4, v);
    Pool.PoolAlike(mem', d.mem, RestOf(pages), NextOf(pages, next), v);
    assert Read64(mem', e) == UserEntryOf(PageOf(pages, next)) by { EntryRead(m.mem, pages, next, e); }
    WordKept(mem', d.mem, e, v);
    ProcessStands(m.mem, d.mem, h, q, al, t, slot, pages, next, va, v);
    LinkStands(m.mem, d.mem, h, q, al, t, slot, pages, next, va, v);
  }

  lemma EntryRead(mem: Ram8, pages: seq<nat>, next: Word, e: nat)
    requires (pages != [] ==> pages[0] + 8 <= RAM_SIZE) && e + 8 <= RAM_SIZE
    ensures Read64(MappedMem(mem, pages, next, e), e) == UserEntryOf(PageOf(pages, next))
  {
    hide Read64, Write64, UserEntryOf, Taken;
    ReadBack(Taken(Write64(mem, PTE_SCRATCH, e), pages, next), e, UserEntryOf(PageOf(pages, next)));
  }

  lemma HandlerAlike(mem: Ram8, mem': Ram8, h: nat, q: nat, al: nat, pt4: nat, v: Env)
    requires HandlerAt(mem, h, q, al, pt4, v) && Alike(mem, mem', v)
    ensures HandlerAt(mem', h, q, al, pt4, v)
  {
    hide Code, Alike, HandlerCode, Pool.AllocCode;
    CodeAlike(mem, mem', h, HandlerCode(h, q, al), v);
    CodeAlike(mem, mem', al, Pool.AllocCode(), v);
  }

  /** A word that is none of the four written. */
  predicate Unwritten(a: nat, e: nat) {
    Apart(a, 8, PTE_SCRATCH, 8) && Apart(a, 8, Pool.NEXT_PAGE, 16) && Apart(a, 8, e, 8)
  }

  /** Every other word is as it was. */
  lemma MappedElsewhere(mem: Ram8, pages: seq<nat>, next: Word, e: nat, a: nat)
    requires (pages != [] ==> pages[0] + 8 <= RAM_SIZE) && e + 8 <= RAM_SIZE && a + 8 <= RAM_SIZE && Unwritten(a, e)
    ensures Read64(MappedMem(mem, pages, next, e), a) == Read64(mem, a)
  {
    hide Read64, Write64, UserEntryOf, Plus;
    var mem1 := Write64(mem, PTE_SCRATCH, e);
    ReadApart(mem, PTE_SCRATCH, e, a);
    if pages == [] {
      ReadApart(mem1, Pool.NEXT_PAGE, Plus(next, 4096), a);
    } else {
      ReadApart(mem1, Pool.FREE_HEAD, Read64(mem1, pages[0]), a);
    }
    ReadApart(Taken(mem1, pages, next), e, UserEntryOf(PageOf(pages, next)), a);
  }

  /** The process's slot lies away from PT4 and from the words the handler writes. */
  predicate SlotApart(slot: nat, e: nat) { Unwritten(slot + Index.SLOT_PT4, e) }

  lemma ProcessStands(mem: Ram8, mem': Ram8, h: nat, q: nat, al: nat, t: Tables, slot: nat, pages: seq<nat>, next: Word, va: Word, v: Env)
    requires TablesOk(t) && Index.Process(mem, slot, t.pt4, v) && SlotApart(slot, PteOf(t, va)) && v.tables == PagesOf(t)
    requires PteOf(t, va) + 8 <= RAM_SIZE && (pages != [] ==> pages[0] + 8 <= RAM_SIZE) && Space(mem, t) && Pool.NEXT_PAGE / 4096 !in v.tables
    requires Alike(MappedMem(mem, pages, next, PteOf(t, va)), mem', v)
    ensures Index.Process(mem', slot, t.pt4, v)
  {
    hide Read64, Write64, Alike, MappedMem, Space, PagesOf, PteOf;
    var e := PteOf(t, va);
    PteOfFits(t, va);
    EntryOff(mem, t, e, v);
    MappedElsewhere(mem, pages, next, e, Index.CUR_SLOT);
    MappedElsewhere(mem, pages, next, e, slot + Index.SLOT_PT4);
    WordKept(MappedMem(mem, pages, next, e), mem', Index.CUR_SLOT, v);
    WordKept(MappedMem(mem, pages, next, e), mem', slot + Index.SLOT_PT4, v);
  }

  /** The directory's link to PT4. */
  lemma LinkStands(mem: Ram8, mem': Ram8, h: nat, q: nat, al: nat, t: Tables, slot: nat, pages: seq<nat>, next: Word, va: Word, v: Env)
    requires Space(mem, t) && Holds(mem, t.pd + 32, t.pt4 + 3) && v.tables == PagesOf(t) && Pool.NEXT_PAGE / 4096 !in v.tables
    requires PteOf(t, va) + 8 <= RAM_SIZE && (pages != [] ==> pages[0] + 8 <= RAM_SIZE)
    requires Alike(MappedMem(mem, pages, next, PteOf(t, va)), mem', v)
    ensures Holds(mem', t.pd + 32, t.pt4 + 3)
  {
    hide Read64, Write64, Alike, MappedMem, Space, PagesOf, PteOf, SameEntry;
    var e := PteOf(t, va);
    SpaceOk(mem, t);
    PteOfFits(t, va);
    PagesApart(t.pd, t.pt4);
    assert Apart(t.pd, 4096, Pool.NEXT_PAGE, 4096) by { DirectoryOff(t, v); }
    MappedElsewhere(mem, pages, next, e, t.pd + 32);
    var mem1 := MappedMem(mem, pages, next, e);
    AlikeTables(mem1, mem', v);
    PageAligned(t.pd, 4);
    HoldsAgree(mem1, mem', t.pd + 32, t.pt4 + 3);
  }

  lemma DirectoryOff(t: Tables, v: Env)
    requires TablesOk(t) && v.tables == PagesOf(t) && Pool.NEXT_PAGE / 4096 !in v.tables
    ensures Apart(t.pd, 4096, Pool.NEXT_PAGE, 4096)
  {
    PagesApart(t.pd, Pool.NEXT_PAGE);
  }

  /** The documented register contract: a fault costs the program no register but x1, x3, x10, x11 and
      x15.  The handler also leaves the new entry in x2, so the contract is met exactly when x2 held
      that entry already. */
  lemma ContractMet(m: Machine, d: Machine, h: nat, q: nat, al: nat, t: Tables, slot: nat, pages: seq<nat>, next: Word, va: Word, cached: bool)
    requires Mapped(m, d, h, q, al, t, slot, pages, next, va, cached)
    ensures (forall r | 0 <= r < 16 && r !in {1, 3, 10, 11, 15} :: d.regs[r] == m.regs[r])
       <==> m.regs[2] == UserEntryOf(PageOf(pages, next))
  {
    hide UserEntryOf, PteOf, EnvOf, On, Serves, Alike, MappedMem, Read64;
    assert d.regs[2] == UserEntryOf(PageOf(pages, next));
  }

  lemma EntryNotZero(page: Word)
    ensures UserEntryOf(page) != 0
  {
    hide Or;
    OrAtLeast(page, 7);
  }

  /** A concrete case: a program that faults with x2 zero goes on with x2 not zero. */
  lemma ZeroX2Lost(m: Machine, h: nat, q: nat, al: nat, t: Tables, slot: nat, pages: seq<nat>, next: Word, va: Word, cached: bool)
    requires Delivered(m, h, q, al, t, slot, pages, next, va, cached) && m.regs[2] == 0
    ensures exists n: nat, d: Machine :: Leads(m, n, d, cached) && d.pc == m.mode.epc && d.mode.user == m.mode.prevUser && d.regs[2] != 0
  {
    hide Delivered, UserEntryOf, PteOf, EnvOf, On, Serves, Alike, MappedMem, Read64;
    HandlerMaps(m, h, q, al, t, slot, pages, next, va, cached);
    var n: nat, d: Machine :| Leads(m, n, d, cached) && Mapped(m, d, h, q, al, t, slot, pages, next, va, cached);
    EntryNotZero(PageOf(pages, next));
    assert d.regs[2] == UserEntryOf(PageOf(pages, next));
  }

  lemma {:induction false} OrAtLeast(a: nat, b: nat)
    ensures Or(a, b) >= b
    decreases a
  {
    if a != 0 && b != 0 {
      OrAtLeast(a / 2, b / 2);
    }
  }

  // ---- Fault progress -----------------------------------------------------------------------------

  /** A walk of the user region ends at va's entry of PT4, if that is present. */
  lemma RegionWalk(mem: Ram8, t: Tables, va: Word)
    requires Space(mem, t) && Holds(mem, t.pd + 32, t.pt4 + 3) && USER_VA <= va < USER_TOP
    ensures var e := PteOf(t, va);
      e + 8 <= RAM_SIZE && Walk(mem, t.pml4, va, 3) == if PteP(Read64(mem, e)) then Leaf(e, Read64(mem, e)) else NoPage
  {
    hide Read64, SameEntry, KernelPd, Walk, Closed;
    PteOfFits(t, va);
    UserWalk(mem, t.pml4, t.pdpt, t.pd, t.pt4, va);
  }

  /** A not-present reply in the user region means the entry is absent, whatever the TLB holds, and
      the machine is as it was. */
  lemma FaultMeansAbsent(m: Machine, t: Tables, va: Word, access: Access, cached: bool)
    requires On(m, t, cached) && USER_VA <= va < USER_TOP && Translate(m, va, access, cached).reply == Fault(1)
    ensures Absent(m.mem, PteOf(t, va)) && Translate(m, va, access, cached).m == m
  {
    hide Read64, Walk, Marked, Space, Holds, Coherent, Root, Ppn, PteW, PteU, PteNx, PteOf;
    RegionWalk(m.mem, t, va);
    if cached {
      TranslateAgrees(m, m, va, access);
    }
    assert WalkOf(m, va) == NoPage;
  }

  /** What delivering that fault gives the kernel to start from. */
  lemma FaultDelivered(m: Machine, epc: Word, h: nat, q: nat, al: nat, t: Tables, slot: nat, pages: seq<nat>, next: Word,
                       va: Word, access: Access, cached: bool)
    requires On(m, t, cached) && USER_VA <= va < USER_TOP && Translate(m, va, access, cached).reply == Fault(1) && !m.halted
    requires Serves(m.mem, h, q, al, t, slot, pages, next, EnvOf(t, cached)) && Read64(m.mem, FAULT_VECTOR) == h
    requires SlotApart(slot, PteOf(t, va))
    ensures Delivered(DeliverFault(m, epc, 1, va), h, q, al, t, slot, pages, next, va, cached)
  {
    hide Read64, Walk, Marked, Space, Holds, Coherent, Root, PteOf, Serves, Absent, EnvOf, Translate;
    FaultMeansAbsent(m, t, va, access, cached);
    var d := DeliverFault(m, epc, 1, va);
    RootKept(m, d, t);
    if cached {
      CoherentFrame(m, d);
    }
  }

  /** After the handler the faulting access goes through, in user mode too, for every kind of access,
      to the page that was mapped. */
  lemma RetrySucceeds(d: Machine, t: Tables, page: Word, va: Word, access: Access, cached: bool)
    requires On(d, t, cached) && USER_VA <= va < USER_TOP && page % 4096 == 0 && page < RAM_SIZE
    requires PteOf(t, va) + 8 <= RAM_SIZE && Read64(d.mem, PteOf(t, va)) == UserEntryOf(page)
    ensures Translate(d, va, access, cached).reply == Pa(page + va % 4096)
  {
    hide Read64, SameEntry, Ppn, PteP, PteW, PteU, PteNx, Walk, Space, Holds, Root, Marked, Coherent, PteOf;
    RegionWalk(d.mem, t, va);
    OrLow(page, 7);
    Reflexive(page + 7);
    UserEntry(Read64(d.mem, PteOf(t, va)), page);
    if cached {
      TranslateAgrees(d, d, va, access);
    }
    assert WalkOf(d, va) == Leaf(PteOf(t, va), Read64(d.mem, PteOf(t, va)));
  }

  /** From the fault to the retry: an access to the user region that finds no page takes one fault,
      and is retried in its own mode with its page mapped. */
  lemma FaultProgress(m: Machine, epc: Word, h: nat, q: nat, al: nat, t: Tables, slot: nat, pages: seq<nat>, next: Word,
                      va: Word, access: Access, cached: bool)
    requires On(m, t, cached) && USER_VA <= va < USER_TOP && Translate(m, va, access, cached).reply == Fault(1) && !m.halted
    requires Serves(m.mem, h, q, al, t, slot, pages, next, EnvOf(t, cached)) && Read64(m.mem, FAULT_VECTOR) == h
    requires SlotApart(slot, PteOf(t, va)) && (pages == [] ==> next % 4096 == 0 && next < RAM_SIZE)
    ensures exists n: nat, d: Machine ::
      && Leads(DeliverFault(m, epc, 1, va), n, d, cached) && d.pc == epc && d.mode.user == m.mode.user
      && Translate(d, va, access, cached).reply == Pa(PageOf(pages, next) + va % 4096)
  {
    hide Read64, Space, Holds, Coherent, Root, PteOf, Serves, Absent, EnvOf, Translate, On, HandlerRegs, Alike, Delivered;
    FaultDelivered(m, epc, h, q, al, t, slot, pages, next, va, access, cached);
    var m1 := DeliverFault(m, epc, 1, va);
    HandlerMaps(m1, h, q, al, t, slot, pages, next, va, cached);
    var n: nat, d: Machine :| Leads(m1, n, d, cached) && Mapped(m1, d, h, q, al, t, slot, pages, next, va, cached);
    PageFits(m.mem, h, q, al, t, slot, pages, next, cached);
    RetrySucceeds(d, t, PageOf(pages, next), va, access, cached);
  }

  lemma PageFits(mem: Ram8, h: nat, q: nat, al: nat, t: Tables, slot: nat, pages: seq<nat>, next: Word, cached: bool)
    requires Serves(mem, h, q, al, t, slot, pages, next, EnvOf(t, cached)) && (pages == [] ==> next % 4096 == 0 && next < RAM_SIZE)
    ensures PageOf(pages, next) % 4096 == 0 && PageOf(pages, next) < RAM_SIZE
  {
    hide Read64, HandlerAt, Index.Process;
  }
}
