// A user program's load or store that finds no page: the fault, the handler,
// and the same instruction again, now completing.

module FaultRetry {
  import opened Mik64Mmu
  import opened Mik64Tlb
  import opened Mik64Cpu
  import opened Mik64Bisim
  import opened FlatCode
  import opened IdentityMap
  import opened SupervisorCode
  import opened ProcessSpace
  import opened PageFault
  import Clock = Mik64Timer
  import Pool = PagePool

  predicate InRegion(va: Word) { USER_VA <= va < USER_TOP }

  /** A program in the user region is about to fetch and execute the load64 or store64 i, which lies
      at fp in memory. */
  ghost predicate AtAccess(m: Machine, t: Tables, i: Ins, fp: nat, cached: bool) {
    && On(m, t, cached) && !m.halted && !Interrupted(m) && InRegion(m.pc) && fp % 8 == 0 && fp + 8 <= RAM_SIZE
    && InsOk(i) && i.opcode in {LOAD64, STORE64} && m.regs[0] == 0
    && Fetched(m, cached).reply == Pa(fp) && Read64(Fetched(m, cached).m.mem, fp) == WordOf(i)
  }

  function KindOf(i: Ins): Access { if i.opcode == LOAD64 then Load else Store }

  function AddressOf(m: Machine, i: Ins): Word
    requires InsOk(i)
  {
    Wrap(m.regs[i.rs1] + i.imm)
  }

  /** Fetched and decoded: the access is next. */
  function Decoded(m: Machine, cached: bool): Machine
    requires InRegion(m.pc)
  {
    Fetched(m, cached).m.(pc := m.pc + 8)
  }

  // ---- Translation leaves the space -------------------------------------------------------------

  /** Translation marks an entry at most: the process's space stands. */
  lemma OnTranslated(m: Machine, va: nat, access: Access, t: Tables, cached: bool)
    requires On(m, t, cached)
    ensures var d := Translate(m, va, access, cached).m;
      On(d, t, cached) && SameTables(m.mem, d.mem) && d.csrs == m.csrs && d.regs == m.regs && d.pc == m.pc
      && d.mode == m.mode && d.timer == m.timer && d.halted == m.halted
  {
    hide Space, Holds, Coherent, Root, Read64, SameTables, Translate;
    var d := Translate(m, va, access, cached).m;
    Clock.TranslateKeeps(m, va, access, cached);
    MarksOnly(m, va, access);
    if cached {
      TranslateAgrees(m, m, va, access);
    }
    SpaceAlike(m.mem, d.mem, t);
    LinkKept(m.mem, d.mem, t);
    RootKept(m, d, t);
  }

  lemma LinkKept(mem: Ram8, mem': Ram8, t: Tables)
    requires Space(mem, t) && Holds(mem, t.pd + 32, t.pt4 + 3) && SameTables(mem, mem')
    ensures Holds(mem', t.pd + 32, t.pt4 + 3)
  {
    hide Read64, SameEntry, KernelChain, Closed;
    PageAligned(t.pd, 4);
    HoldsAgree(mem, mem', t.pd + 32, t.pt4 + 3);
  }

  lemma MarksOnly(m: Machine, va: nat, access: Access)
    ensures SameTables(m.mem, Translate(m, va, access, false).m.mem)
  {
    hide Walk, Marked, Denial, SameTables, SameEntry, Root;
    RootAligned(m);
    SameTablesRefl(m.mem);
    WalkSameTables(m.mem, m.mem, Root(m), va, 3);
    var l := Walk(m.mem, Root(m), va, 3);
    if l.Leaf? {
      MarkedSameTables(m.mem, l.addr, access);
    }
  }

  // ---- Fetching in the region ---------------------------------------------------------------------

  /** The entry w lets a machine in this mode fetch. */
  predicate Fetchable(user: bool, w: Word) { PteP(w) && Denial(user, PteU(w), PteW(w), PteNx(w), Fetch) == 0 }

  /** A fetch in the region succeeds exactly through a present, permitting entry of PT4, and marks it. */
  lemma RegionFetch(m: Machine, t: Tables, cached: bool)
    requires On(m, t, cached) && InRegion(m.pc)
    ensures PteOf(t, m.pc) + 8 <= RAM_SIZE
    ensures var e, f := PteOf(t, m.pc), Fetched(m, cached);
      var w := Read64(m.mem, e);
      && (f.reply.Pa? <==> Fetchable(m.mode.user, w))
      && (f.reply.Pa? ==> f.reply.pa == Ppn(w) * 4096 + m.pc % 4096 && f.m.mem == Marked(m.mem, e, Fetch))
  {
    hide Read64, Space, Holds, Coherent, Root, Walk, Marked, Denial, Ppn, PteW, PteU, PteNx, PteP, PteOf;
    RegionWalk(m.mem, t, m.pc);
    if cached {
      TranslateAgrees(m, m, m.pc, Fetch);
    }
    assert WalkOf(m, m.pc) == if PteP(Read64(m.mem, PteOf(t, m.pc))) then Leaf(PteOf(t, m.pc), Read64(m.mem, PteOf(t, m.pc))) else NoPage;
  }

  // ---- The fault ------------------------------------------------------------------------------------

  /** The step that faults: the access finds no page, and the fault is delivered with pc as it was. */
  lemma FaultStep(m: Machine, t: Tables, i: Ins, fp: nat, cached: bool)
    requires AtAccess(m, t, i, fp, cached) && InRegion(AddressOf(m, i))
    requires Translate(Decoded(m, cached), AddressOf(m, i), KindOf(i), cached).reply == Fault(1)
    ensures On(Decoded(m, cached), t, cached) && Step(m, cached) == Ok(DeliverFault(Decoded(m, cached), m.pc, 1, AddressOf(m, i)))
  {
    hide Read64, Space, Holds, Coherent, Root, Translate, WordOf, PteOf, On, Absent, DeliverFault, Opcode, Rd, Rs1, Rs2, Imm;
    OnTranslated(m, m.pc, Fetch, t, cached);
    var u, va := Decoded(m, cached), AddressOf(m, i);
    assert On(u, t, cached) by { OnMoved(Fetched(m, cached).m, u, t, cached); }
    FaultMeansAbsent(u, t, va, KindOf(i), cached);
    DecodeOf(i);
    assert Wrap(m.pc + 8) == m.pc + 8;
  }

  lemma OnMoved(m: Machine, d: Machine, t: Tables, cached: bool)
    requires On(m, t, cached) && d == m.(pc := d.pc)
    ensures On(d, t, cached)
  {
    hide Space, Holds;
    if cached {
      CoherentFrame(m, d);
    }
  }

  // ---- The retry ------------------------------------------------------------------------------------

  /** The program's word lies off the leaf tables, off PT4 and off the words the handler writes. */
  predicate WordApart(t: Tables, fp: nat, e: nat) {
    Unwritten(fp, e) && Apart(fp, 8, t.pt, 0x4000) && Apart(fp, 8, t.pt4, 4096)
  }

  /** What the handler did not write is as it was at the fault. */
  lemma WordStands(m: Machine, d: Machine, h: nat, q: nat, al: nat, t: Tables, slot: nat, pages: seq<nat>, next: Word, va: Word, cached: bool, a: nat)
    requires Mapped(m, d, h, q, al, t, slot, pages, next, va, cached)
    requires a + 8 <= RAM_SIZE && Unwritten(a, PteOf(t, va)) && Apart(a, 8, t.pt, 0x4000)
    ensures Read64(d.mem, a) == Read64(m.mem, a)
  {
    hide Read64, PteOf, HandlerRegs, UserEntryOf, On, Serves, MappedMem, Alike;
    MappedElsewhere(m.mem, pages, next, PteOf(t, va), a);
    WordKept(MappedMem(m.mem, pages, next, PteOf(t, va)), d.mem, a, EnvOf(t, cached));
  }

  /** Another entry of PT4 is none of them. */
  lemma EntryUnwritten(mem: Ram8, h: nat, q: nat, al: nat, t: Tables, slot: nat, pages: seq<nat>, next: Word, va: Word, pc: Word, cached: bool)
    requires Serves(mem, h, q, al, t, slot, pages, next, EnvOf(t, cached)) && Space(mem, t)
    requires Absent(mem, PteOf(t, va)) && PteOf(t, pc) + 8 <= RAM_SIZE && PteP(Read64(mem, PteOf(t, pc)))
    ensures Unwritten(PteOf(t, pc), PteOf(t, va)) && Apart(PteOf(t, pc), 8, t.pt, 0x4000)
  {
    hide Read64, PteP, PteOf, HandlerAt, Space, Pool.PoolIs, PagesOf;
    var v := EnvOf(t, cached);
    SpaceOk(mem, t);
    PteOfFits(t, va);
    PteOfFits(t, pc);
    StateFits(mem, h, q, al, t.pt4, v);
    EntryOff(mem, t, PteOf(t, pc), v);
    Apart8(PteOf(t, va), PteOf(t, pc));
  }

  /** Back from the handler the same word is fetched from the same place, and the page is there. */
  ghost predicate Again(d: Machine, t: Tables, i: Ins, fp: nat, e: nat, page: Word, cached: bool) {
    && InsOk(i) && InRegion(d.pc) && Fetched(d, cached).reply == Pa(fp) && fp % 8 == 0 && fp + 8 <= RAM_SIZE && e + 8 <= RAM_SIZE
    && Read64(Fetched(d, cached).m.mem, fp) == WordOf(i) && On(Decoded(d, cached), t, cached)
    && Read64(Decoded(d, cached).mem, e) == UserEntryOf(page)
  }

  lemma Refetches(m: Machine, u: Machine, d: Machine, i: Ins, fp: nat, h: nat, q: nat, al: nat, t: Tables, slot: nat,
                  pages: seq<nat>, next: Word, va: Word, cached: bool)
    requires AtAccess(m, t, i, fp, cached) && On(u, t, cached) && u.mem == Decoded(m, cached).mem && InRegion(va)
    requires Serves(u.mem, h, q, al, t, slot, pages, next, EnvOf(t, cached)) && Absent(u.mem, PteOf(t, va))
    requires Mapped(u, d, h, q, al, t, slot, pages, next, va, cached) && d.pc == m.pc && d.mode.user == m.mode.user
    requires WordApart(t, fp, PteOf(t, va))
    ensures Again(d, t, i, fp, PteOf(t, va), PageOf(pages, next), cached)
  {
    hide Read64, Space, Holds, Coherent, Root, Translate, WordOf, PteOf, Absent, HandlerRegs, UserEntryOf, Serves, MappedMem, Alike, SameEntry,
      Marked, Denial, Ppn, PteP, PteW, PteU, PteNx;
    var e, e' := PteOf(t, va), PteOf(t, m.pc);
    RegionFetch(m, t, cached);
    OnTranslated(m, m.pc, Fetch, t, cached);
    EntriesIn(u.mem, t, va, m.pc);
    assert SameEntry(Read64(m.mem, e'), Read64(u.mem, e')) by { SameEntryAt(m.mem, u.mem, e'); }
    SameFetch(m.mode.user, Read64(m.mem, e'), Read64(u.mem, e'));
    EntryUnwritten(u.mem, h, q, al, t, slot, pages, next, va, m.pc, cached);
    WordStands(u, d, h, q, al, t, slot, pages, next, va, cached, e');
    WordStands(u, d, h, q, al, t, slot, pages, next, va, cached, fp);
    RegionFetch(d, t, cached);
    MarkedApart(d.mem, e', fp);
    MarkedApart(d.mem, e', e);
    OnTranslated(d, d.pc, Fetch, t, cached);
    OnMoved(Fetched(d, cached).m, Decoded(d, cached), t, cached);
  }

  lemma EntriesIn(mem: Ram8, t: Tables, va: Word, pc: Word)
    requires Space(mem, t)
    ensures PteOf(t, va) + 8 <= RAM_SIZE && PteOf(t, pc) + 8 <= RAM_SIZE && PteOf(t, pc) % 8 == 0
    ensures t.pt4 <= PteOf(t, pc) && PteOf(t, pc) + 8 <= t.pt4 + 4096
  {
    hide PteOf;
    SpaceOk(mem, t);
    PteOfFits(t, va);
    PteOfFits(t, pc);
  }

  lemma SameFetch(user: bool, w: Word, w': Word)
    requires SameEntry(w, w')
    ensures (Fetchable(user, w) <==> Fetchable(user, w')) && Ppn(w) == Ppn(w') && PteP(w) == PteP(w')
  {
    hide PteP, PteW, PteU, PteNx, Ppn;
  }

  lemma MarkedApart(mem: Ram8, e: nat, a: nat)
    requires e + 8 <= RAM_SIZE && a + 8 <= RAM_SIZE && Apart(a, 8, e, 8)
    ensures Read64(Marked(mem, e, Fetch), a) == Read64(mem, a)
  {
    hide Read64, Write64, Mark;
    ReadApart(mem, e, Mark(Read64(mem, e), Fetch), a);
  }

  /** The instruction completes: the load or store has happened at pa. */
  ghost predicate Completed(d: Machine, i: Ins, pa: nat, cached: bool) {
    && InsOk(i) && Step(d, cached).Ok?
    && var d' := Step(d, cached).m;
    && d'.pc == d.pc + 8 && pa + 8 <= RAM_SIZE
    && (i.opcode == LOAD64 && i.rd != 0 ==> d'.regs == d.regs[i.rd := Read64(d'.mem, pa)])
    && (i.opcode == STORE64 ==> d'.regs == d.regs && Read64(d'.mem, pa) == d.regs[i.rs2])
  }

  lemma CompletesNow(d: Machine, t: Tables, i: Ins, fp: nat, page: Word, va: Word, cached: bool)
    requires InRegion(va) && Again(d, t, i, fp, PteOf(t, va), page, cached) && InsOk(i) && i.opcode in {LOAD64, STORE64}
    requires va == AddressOf(d, i) && !Interrupted(d) && d.regs[0] == 0 && page % 4096 == 0 && page + va % 4096 + 8 <= RAM_SIZE
    ensures Completed(d, i, page + va % 4096, cached)
  {
    hide Read64, Write64, Space, Holds, Coherent, Root, Translate, WordOf, PteOf, On, UserEntryOf, Opcode, Rd, Rs1, Rs2, Imm;
    var u := Decoded(d, cached);
    Clock.TranslateKeeps(d, d.pc, Fetch, cached);
    RetrySucceeds(u, t, page, va, KindOf(i), cached);
    Clock.TranslateKeeps(u, va, KindOf(i), cached);
    DecodeOf(i);
    assert Wrap(d.pc + 8) == d.pc + 8;
    var w := Translate(u, va, KindOf(i), cached).m;
    if i.opcode == STORE64 {
      ReadBack(w.mem, page + va % 4096, d.regs[i.rs2]);
    }
    assert d.regs[0 := 0] == d.regs;
  }

  /** The registers that the fault and its handler leave alone. */
  predicate Survives(r: nat) { r !in {1, 2, 3, 10, 11, 15} }

  /** From a load or store of the user region that finds no page to the same instruction about to
      complete: one fault, the handler, and back at the same pc in the same mode; unless a tick is due
      first, the next step completes it on the page just mapped, provided the address is not in a
      register the fault costs. */
  lemma AccessCompletes(m: Machine, i: Ins, fp: nat, h: nat, q: nat, al: nat, t: Tables, slot: nat, pages: seq<nat>, next: Word, cached: bool)
    requires AtAccess(m, t, i, fp, cached) && InRegion(AddressOf(m, i)) && Survives(i.rs1)
    requires Translate(Decoded(m, cached), AddressOf(m, i), KindOf(i), cached).reply == Fault(1)
    requires var mem, e := Decoded(m, cached).mem, PteOf(t, AddressOf(m, i));
      && Serves(mem, h, q, al, t, slot, pages, next, EnvOf(t, cached)) && Read64(mem, FAULT_VECTOR) == h
      && SlotApart(slot, e) && WordApart(t, fp, e)
    requires (pages == [] ==> next % 4096 == 0 && next < RAM_SIZE) && PageOf(pages, next) + AddressOf(m, i) % 4096 + 8 <= RAM_SIZE
    ensures exists n: nat, d: Machine ::
      && Leads(m, n, d, cached) && d.pc == m.pc && d.mode.user == m.mode.user && On(d, t, cached)
      && (forall r | 0 <= r < 16 && Survives(r) :: d.regs[r] == Decoded(m, cached).regs[r])
      && (!d.timer.pending ==> Completed(d, i, PageOf(pages, next) + AddressOf(m, i) % 4096, cached))
  {
    hide Read64, Translate, WordOf, PteOf, On, Serves, Absent, EnvOf, Completed, WordApart, AtAccess, Mapped, Delivered, DeliverFault, SlotApart;
    AccessFacts(m, t, i, fp, cached);
    var u, va := Decoded(m, cached), AddressOf(m, i);
    FaultStep(m, t, i, fp, cached);
    var m1 := DeliverFault(u, m.pc, 1, va);
    FaultMeansAbsent(u, t, va, KindOf(i), cached);
    FaultDelivered(u, m.pc, h, q, al, t, slot, pages, next, va, KindOf(i), cached);
    HandlerMaps(m1, h, q, al, t, slot, pages, next, va, cached);
    var n: nat, d: Machine :| Leads(m1, n, d, cached) && Mapped(m1, d, h, q, al, t, slot, pages, next, va, cached);
    LeadsStep(m, m1, n, d, cached);
    Resumes(m, u, d, i, fp, h, q, al, t, slot, pages, next, va, cached);
  }

  lemma Resumes(m: Machine, u: Machine, d: Machine, i: Ins, fp: nat, h: nat, q: nat, al: nat, t: Tables, slot: nat,
                pages: seq<nat>, next: Word, va: Word, cached: bool)
    requires AtAccess(m, t, i, fp, cached) && u == Decoded(m, cached) && On(u, t, cached) && va == AddressOf(m, i) && InRegion(va) && Survives(i.rs1)
    requires Serves(u.mem, h, q, al, t, slot, pages, next, EnvOf(t, cached)) && Absent(u.mem, PteOf(t, va)) && WordApart(t, fp, PteOf(t, va))
    requires Delivered(DeliverFault(u, m.pc, 1, va), h, q, al, t, slot, pages, next, va, cached)
    requires Mapped(DeliverFault(u, m.pc, 1, va), d, h, q, al, t, slot, pages, next, va, cached)
    requires (pages == [] ==> next % 4096 == 0 && next < RAM_SIZE) && PageOf(pages, next) + va % 4096 + 8 <= RAM_SIZE
    ensures d.pc == m.pc && d.mode.user == m.mode.user && On(d, t, cached)
    ensures forall r | 0 <= r < 16 && Survives(r) :: d.regs[r] == u.regs[r]
    ensures !d.timer.pending ==> Completed(d, i, PageOf(pages, next) + va % 4096, cached)
  {
    hide Read64, Translate, WordOf, PteOf, On, Serves, Absent, EnvOf, Completed, WordApart, AtAccess, Delivered, Again, UserEntryOf, MappedMem, Alike;
    var m1 := DeliverFault(u, m.pc, 1, va);
    AccessFacts(m, t, i, fp, cached);
    OnDelivered(m1, h, q, al, t, slot, pages, next, va, cached);
    Refetches(m, m1, d, i, fp, h, q, al, t, slot, pages, next, va, cached);
    PageFits(u.mem, h, q, al, t, slot, pages, next, cached);
    if !d.timer.pending {
      CompletesNow(d, t, i, fp, PageOf(pages, next), va, cached);
    }
  }

  lemma AccessFacts(m: Machine, t: Tables, i: Ins, fp: nat, cached: bool)
    requires AtAccess(m, t, i, fp, cached)
    ensures !m.halted && InRegion(m.pc) && InsOk(i) && i.opcode in {LOAD64, STORE64}
    ensures var u := Decoded(m, cached);
      u.regs == m.regs && u.mode == m.mode && !u.halted && m.regs[0] == 0
  {
    hide On, WordOf, Translate;
    Clock.TranslateKeeps(m, m.pc, Fetch, cached);
  }

  lemma OnDelivered(m: Machine, h: nat, q: nat, al: nat, t: Tables, slot: nat, pages: seq<nat>, next: Word, va: Word, cached: bool)
    requires Delivered(m, h, q, al, t, slot, pages, next, va, cached)
    ensures On(m, t, cached)
  {}
}
