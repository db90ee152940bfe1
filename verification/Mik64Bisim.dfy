// Whole runs with the TLB against whole runs without it.  The TLB can only go
// stale when a store overwrites a word some cached walk went through; as long
// as none does, no program can tell the two machines apart.

module Mik64Bisim {
  import opened Bytes
  import opened Mik64Mmu
  import opened Mik64Tlb
  import opened Mik64Cpu

  // ---- The bytes a walk depends on --------------------------------------------------

  /** Byte b belongs to an entry the walk looks at. */
  ghost predicate Visits(mem: Ram8, table: nat, va: nat, level: nat, b: nat)
    requires level < 4
    decreases level
  {
    var a := table + Ix(va, level) * 8;
    && a + 8 <= RAM_SIZE
    && (a <= b < a + 8
        || (level > 0 && PteP(Read64(mem, a)) && Visits(mem, Ppn(Read64(mem, a)) * 4096, va, level - 1, b)))
  }

  /** Memories that agree on the bytes a walk visits give the same walk. */
  lemma {:induction false} WalkFrame(mem: Ram8, mem': Ram8, table: nat, va: nat, level: nat)
    requires level < 4
    requires forall b: nat | b < RAM_SIZE && Visits(mem, table, va, level, b) :: mem'[b] == mem[b]
    ensures Walk(mem', table, va, level) == Walk(mem, table, va, level)
    decreases level
  {
    hide Ix, Ppn, PteP;
    var a := table + Ix(va, level) * 8;
    if a + 8 <= RAM_SIZE {
      assert mem'[a..a + 8] == mem[a..a + 8];
      assert Read64(mem', a) == Read64(mem, a);
      if level > 0 && PteP(Read64(mem, a)) {
        WalkFrame(mem, mem', Ppn(Read64(mem, a)) * 4096, va, level - 1);
      }
    }
  }

  /** A walk that finds a page goes through present entries only, so it visits no byte of an
      aligned word whose P bit is clear. */
  lemma {:induction false} AbsentNotVisited(mem: Ram8, table: nat, va: nat, level: nat, a: nat, b: nat)
    requires level < 4 && table % 4096 == 0 && Walk(mem, table, va, level).Leaf?
    requires a % 8 == 0 && a + 8 <= RAM_SIZE && !PteP(Read64(mem, a)) && a <= b < a + 8
    ensures !Visits(mem, table, va, level, b)
    decreases level
  {
    hide Ix, Ppn, PteP, Read64;
    var x := table + Ix(va, level) * 8;
    SlotAligned(table, Ix(va, level));
    if level > 0 {
      AbsentNotVisited(mem, Ppn(Read64(mem, x)) * 4096, va, level - 1, a, b);
    }
    if x <= b < x + 8 {
      SameWord(a, x, b);
    }
  }

  lemma SameWord(a: nat, x: nat, b: nat)
    requires a % 8 == 0 && x % 8 == 0 && a <= b < a + 8 && x <= b < x + 8
    ensures a == x
  {}

  // ---- Stores that cannot make the TLB stale -------------------------------------------

  /** No valid TLB entry came from a walk through bytes [a, a + n). */
  ghost predicate OffCachedWalks(m: Machine, a: nat, n: nat) {
    forall k, b: nat | 0 <= k < TLB_SIZE && m.tlb[k].valid && a <= b < a + n ::
      !Visits(m.mem, Root(m), m.tlb[k].vpn * 4096, 3, b)
  }

  ghost predicate DiffersWithin(mem: Ram8, mem': Ram8, a: nat, n: nat) {
    forall b: nat | b < RAM_SIZE && !(a <= b < a + n) :: mem'[b] == mem[b]
  }

  lemma OffWalksKeepsCoherent(m: Machine, mem': Ram8, a: nat, n: nat)
    requires Coherent(m) && OffCachedWalks(m, a, n) && DiffersWithin(m.mem, mem', a, n)
    ensures TlbCoherent(mem', Root(m), m.tlb)
  {
    hide Walk, Visits;
    forall k | 0 <= k < TLB_SIZE && m.tlb[k].valid
      ensures m.tlb[k].vpn % 16 == k && EntryOk(mem', Root(m), m.tlb[k])
    {
      assert EntryOk(m.mem, Root(m), m.tlb[k]);
      WalkFrame(m.mem, mem', Root(m), m.tlb[k].vpn * 4096, 3);
    }
  }

  /** Filling in an absent entry, as demand mapping does, never needs a flush: whatever word is
      stored over an aligned word with P clear, it lies on no cached walk. */
  lemma AbsentEntryIsSafe(m: Machine, a: nat)
    requires Coherent(m) && a % 8 == 0 && a + 8 <= RAM_SIZE && !PteP(Read64(m.mem, a))
    ensures OffCachedWalks(m, a, 8)
  {
    hide Walk, Visits, PteP, Read64;
    RootAligned(m);
    forall k, b: nat | 0 <= k < TLB_SIZE && m.tlb[k].valid && a <= b < a + 8
      ensures !Visits(m.mem, Root(m), m.tlb[k].vpn * 4096, 3, b)
    {
      assert EntryOk(m.mem, Root(m), m.tlb[k]);
      AbsentNotVisited(m.mem, Root(m), m.tlb[k].vpn * 4096, 3, a, b);
    }
  }

  /** The walk of va reaches its leaf without going through the entry at a. */
  ghost predicate UpperAvoids(mem: Ram8, table: nat, va: nat, level: nat, a: nat)
    requires level < 4
    decreases level
  {
    level == 0 ||
    var x := table + Ix(va, level) * 8;
    x != a && (x + 8 <= RAM_SIZE && PteP(Read64(mem, x)) ==> UpperAvoids(mem, Ppn(Read64(mem, x)) * 4096, va, level - 1, a))
  }

  lemma {:induction false} LeafRewritten(mem: Ram8, table: nat, va: nat, level: nat, a: nat, w: Word)
    requires level < 4 && table % 4096 == 0 && a % 8 == 0 && UpperAvoids(mem, table, va, level, a)
    requires Walk(mem, table, va, level).Leaf? && Walk(mem, table, va, level).addr == a && a + 8 <= RAM_SIZE
    ensures Walk(Write64(mem, a, w), table, va, level) == if PteP(w) then Leaf(a, w) else NoPage
    decreases level
  {
    hide Ix, Ppn, PteP, Read64, Write64;
    var x := table + Ix(va, level) * 8;
    ReadBack(mem, a, w);
    if level > 0 {
      SlotAligned(table, Ix(va, level));
      Apart8(a, x);
      ReadApart(mem, a, w, x);
      LeafRewritten(mem, Ppn(Read64(mem, x)) * 4096, va, level - 1, a, w);
    }
  }

  /** The condition is needed: a store over the leaf of a cached page leaves the cached entry right
      exactly when the new word grants the same page with the same rights. */
  lemma StoreOverLeaf(mem: Ram8, root: nat, e: TlbEntry, w: Word)
    requires root % 4096 == 0 && EntryOk(mem, root, e) && UpperAvoids(mem, root, e.vpn * 4096, 3, e.pteAddr)
    ensures e.pteAddr + 8 <= RAM_SIZE
    ensures EntryOk(Write64(mem, e.pteAddr, w), root, e)
       <==> PteP(w) && Ppn(w) == e.ppn && PteW(w) == e.writable && PteNx(w) == e.nx && PteU(w) == e.user
  {
    hide Walk, PteP, PteW, PteU, PteNx, Ppn, Write64, SameTables;
    SameTablesRefl(mem);
    WalkSameTables(mem, mem, root, e.vpn * 4096, 3);
    LeafRewritten(mem, root, e.vpn * 4096, 3, e.pteAddr, w);
  }

  // ---- Where the tables lie ------------------------------------------------------------

  /** Every entry any walk from this root looks at lies in one of these pages. */
  ghost predicate TablesIn(mem: Ram8, root: nat, pages: set<nat>) {
    forall va: nat, b: nat | Visits(mem, root, va, 3, b) :: b / 4096 in pages
  }

  /** An absent entry that walks meet only as their last. */
  ghost predicate Fillable(mem: Ram8, root: nat, a: nat) {
    a + 8 <= RAM_SIZE && !PteP(Read64(mem, a)) && forall va: nat :: UpperAvoids(mem, root, va, 3, a)
  }

  /** A word whose overwriting takes no page away: off the tables, or an absent last-level entry. */
  ghost predicate Harmless(mem: Ram8, root: nat, a: nat, pages: set<nat>) {
    a % 8 == 0 && a + 8 <= RAM_SIZE && (a / 4096 !in pages || Fillable(mem, root, a))
  }

  lemma NotVisited(mem: Ram8, root: nat, pages: set<nat>, a: nat, va: nat, b: nat)
    requires root % 4096 == 0 && TablesIn(mem, root, pages) && Harmless(mem, root, a, pages)
    requires Walk(mem, root, va, 3).Leaf? && a <= b < a + 8
    ensures !Visits(mem, root, va, 3, b)
  {
    hide Walk, Visits, PteP, Read64, UpperAvoids;
    if a / 4096 in pages {
      AbsentNotVisited(mem, root, va, 3, a, b);
    } else {
      SamePage(a, b);
    }
  }

  lemma SamePage(a: nat, b: nat)
    requires a % 8 == 0 && a <= b < a + 8
    ensures b / 4096 == a / 4096
  {}

  /** Such a store moves no page: a walk that found one finds it still. */
  lemma HarmlessWalk(mem: Ram8, root: nat, pages: set<nat>, a: nat, w: Word, va: nat)
    requires root % 4096 == 0 && TablesIn(mem, root, pages) && Harmless(mem, root, a, pages)
    requires Walk(mem, root, va, 3).Leaf?
    ensures Walk(Write64(mem, a, w), root, va, 3) == Walk(mem, root, va, 3)
  {
    hide Walk, Visits, Write64, TablesIn, Fillable;
    WriteWithin(mem, a, w);
    forall b: nat | b < RAM_SIZE && Visits(mem, root, va, 3, b) ensures Write64(mem, a, w)[b] == mem[b] {
      if a <= b < a + 8 {
        NotVisited(mem, root, pages, a, va, b);
      }
    }
    WalkFrame(mem, Write64(mem, a, w), root, va, 3);
  }

  lemma HarmlessOffWalks(m: Machine, pages: set<nat>, a: nat)
    requires Coherent(m) && TablesIn(m.mem, Root(m), pages) && Harmless(m.mem, Root(m), a, pages)
    ensures OffCachedWalks(m, a, 8)
  {
    hide Walk, Visits, TablesIn, Fillable, Root;
    RootAligned(m);
    forall k, b: nat | 0 <= k < TLB_SIZE && m.tlb[k].valid && a <= b < a + 8
      ensures !Visits(m.mem, Root(m), m.tlb[k].vpn * 4096, 3, b)
    {
      assert EntryOk(m.mem, Root(m), m.tlb[k]);
      NotVisited(m.mem, Root(m), pages, a, m.tlb[k].vpn * 4096, b);
    }
  }

  /** The tables stay where they are. */
  lemma HarmlessTables(mem: Ram8, root: nat, pages: set<nat>, a: nat, w: Word)
    requires root % 4096 == 0 && TablesIn(mem, root, pages) && Harmless(mem, root, a, pages)
    ensures TablesIn(Write64(mem, a, w), root, pages)
  {
    hide Walk, Visits, Write64, UpperAvoids;
    WriteWithin(mem, a, w);
    forall va: nat, b: nat | Visits(Write64(mem, a, w), root, va, 3, b) ensures b / 4096 in pages {
      if a / 4096 in pages {
        VisitsFilled(mem, root, va, 3, a, w, b);
      } else {
        forall c: nat | c < RAM_SIZE && Visits(mem, root, va, 3, c) ensures Write64(mem, a, w)[c] == mem[c] {
          if a <= c < a + 8 {
            SamePage(a, c);
          }
        }
        VisitsFrame(mem, Write64(mem, a, w), root, va, 3, b);
      }
    }
  }

  lemma {:induction false} VisitsFrame(mem: Ram8, mem': Ram8, table: nat, va: nat, level: nat, b: nat)
    requires level < 4
    requires forall c: nat | c < RAM_SIZE && Visits(mem, table, va, level, c) :: mem'[c] == mem[c]
    ensures Visits(mem', table, va, level, b) <==> Visits(mem, table, va, level, b)
    decreases level
  {
    hide Ix, Ppn, PteP;
    var a := table + Ix(va, level) * 8;
    if a + 8 <= RAM_SIZE {
      assert mem'[a..a + 8] == mem[a..a + 8];
      assert Read64(mem', a) == Read64(mem, a);
      if level > 0 && PteP(Read64(mem, a)) {
        VisitsFrame(mem, mem', Ppn(Read64(mem, a)) * 4096, va, level - 1, b);
      }
    }
  }

  /** What a last-level entry says is nothing to where the walks go. */
  lemma {:induction false} VisitsFilled(mem: Ram8, table: nat, va: nat, level: nat, a: nat, w: Word, b: nat)
    requires level < 4 && table % 4096 == 0 && a % 8 == 0 && a + 8 <= RAM_SIZE && UpperAvoids(mem, table, va, level, a)
    ensures Visits(Write64(mem, a, w), table, va, level, b) <==> Visits(mem, table, va, level, b)
    decreases level
  {
    hide Ix, Ppn, PteP, Read64, Write64;
    var x := table + Ix(va, level) * 8;
    if level > 0 && x + 8 <= RAM_SIZE {
      SlotAligned(table, Ix(va, level));
      Apart8(a, x);
      ReadApart(mem, a, w, x);
      if PteP(Read64(mem, x)) {
        VisitsFilled(mem, Ppn(Read64(mem, x)) * 4096, va, level - 1, a, w, b);
      }
    }
  }

  /** Accessed and dirty bits are nothing to it either. */
  lemma {:induction false} VisitsSameTables(mem: Ram8, mem': Ram8, table: nat, va: nat, level: nat, b: nat)
    requires level < 4 && table % 4096 == 0 && SameTables(mem, mem')
    ensures Visits(mem', table, va, level, b) <==> Visits(mem, table, va, level, b)
    decreases level
  {
    hide Ix, Read64, SameTables, SameEntry, PteP, Ppn;
    var a := table + Ix(va, level) * 8;
    if a + 8 <= RAM_SIZE {
      SlotAligned(table, Ix(va, level));
      SameEntryAt(mem, mem', a);
      if level > 0 && PteP(Read64(mem, a)) {
        VisitsSameTables(mem, mem', Ppn(Read64(mem, a)) * 4096, va, level - 1, b);
      }
    }
  }

  lemma {:induction false} AvoidsSameTables(mem: Ram8, mem': Ram8, table: nat, va: nat, level: nat, a: nat)
    requires level < 4 && table % 4096 == 0 && SameTables(mem, mem') && UpperAvoids(mem, table, va, level, a)
    ensures UpperAvoids(mem', table, va, level, a)
    decreases level
  {
    hide Ix, Read64, SameTables, SameEntry, PteP, Ppn;
    var x := table + Ix(va, level) * 8;
    if level > 0 && x + 8 <= RAM_SIZE {
      SlotAligned(table, Ix(va, level));
      SameEntryAt(mem, mem', x);
      if PteP(Read64(mem, x)) {
        AvoidsSameTables(mem, mem', Ppn(Read64(mem, x)) * 4096, va, level - 1, a);
      }
    }
  }

  lemma TablesInSame(mem: Ram8, mem': Ram8, root: nat, pages: set<nat>)
    requires root % 4096 == 0 && SameTables(mem, mem') && TablesIn(mem, root, pages)
    ensures TablesIn(mem', root, pages)
  {
    hide Visits, SameTables;
    forall va: nat, b: nat | Visits(mem', root, va, 3, b) ensures b / 4096 in pages {
      VisitsSameTables(mem, mem', root, va, 3, b);
    }
  }

  lemma HarmlessSame(mem: Ram8, mem': Ram8, root: nat, a: nat, pages: set<nat>)
    requires root % 4096 == 0 && SameTables(mem, mem') && Harmless(mem, root, a, pages)
    ensures Harmless(mem', root, a, pages)
  {
    hide UpperAvoids, Read64;
    if a / 4096 in pages {
      assert SameEntry(Read64(mem, a), Read64(mem', a));
      forall va: nat ensures UpperAvoids(mem', root, va, 3, a) {
        AvoidsSameTables(mem, mem', root, va, 3, a);
      }
    }
  }

  // ---- One step -----------------------------------------------------------------------

  /** The machine after a successful fetch, with pc advanced. */
  function Advanced(m: Machine): Machine { Fetched(m, true).m.(pc := Wrap(m.pc + 8)) }

  /** If this step stores to RAM, the store hits no cached walk. */
  ghost predicate SafeStep(m: Machine) {
    !Interrupted(m) ==>
      var t := Fetched(m, true);
      t.reply.Pa? && t.reply.pa + 8 <= RAM_SIZE && t.reply.pa % 8 == 0 ==>
        SafeWord(Advanced(m), Read64(t.m.mem, t.reply.pa))
  }

  ghost predicate SafeWord(m: Machine, w: Word) {
    Opcode(w) == STORE8 || Opcode(w) == STORE64 ==>
      SafeStore(m, Wrap(m.regs[Rs1(w)] + Imm(w)), Opcode(w) == STORE64)
  }

  /** Byte stores to the serial port reach no memory. */
  predicate ToSerial(pa: nat, wide: bool) { !wide && (pa == SERIAL_DATA || pa == SERIAL_STATUS) }

  ghost predicate SafeStore(m: Machine, va: Word, wide: bool) {
    var t := Translate(m, va, Store, true);
    t.reply.Pa? && !ToSerial(t.reply.pa, wide) ==> OffCachedWalks(t.m, t.reply.pa, if wide then 8 else 1)
  }

  /** Both machines crash, or both go on as twins with a coherent TLB. */
  ghost predicate Together(d: Done, e: Done) {
    match (d, e)
    case (Next(m), Next(w)) => Twins(m, w) && Coherent(m)
    case (Faulted(m), Faulted(w)) => Twins(m, w) && Coherent(m)
    case (Crash, Crash) => true
    case _ => false
  }

  ghost predicate OutcomesAgree(o: Outcome, p: Outcome) {
    match (o, p)
    case (Ok(m), Ok(w)) => Twins(m, w) && Coherent(m)
    case (Err, Err) => true
    case _ => false
  }

  /** Coherence speaks of the tables, PTBR and the TLB only. */
  lemma CoherentFrame(m: Machine, m': Machine)
    requires Coherent(m) && m'.mem == m.mem && m'.tlb == m.tlb && m'.csrs[CSR_PTBR] == m.csrs[CSR_PTBR]
    ensures Coherent(m')
  {}

  lemma FlushCoherent(m: Machine)
    ensures Coherent(FlushTlb(m))
  {}

  lemma FaultAgrees(m: Machine, w: Machine, epc: Word, code: nat, va: Word)
    requires Coherent(m) && Twins(m, w) && code < 6
    ensures Twins(DeliverFault(m, epc, code, va), DeliverFault(w, epc, code, va))
    ensures Coherent(DeliverFault(m, epc, code, va))
  {
    hide Coherent, Read64;
    CoherentFrame(m, DeliverFault(m, epc, code, va));
  }

  lemma LoadAgrees(m: Machine, w: Machine, base: Word, rd: nat, va: Word, wide: bool)
    requires Coherent(m) && Twins(m, w) && rd < 16
    ensures Together(ExecLoad(m, base, rd, va, wide, true), ExecLoad(w, base, rd, va, wide, false))
  {
    hide Translate, Coherent, Read64, DeliverFault;
    TranslateAgrees(m, w, va, Load);
    var t, u := Translate(m, va, Load, true), Translate(w, va, Load, false);
    if t.reply.Fault? {
      FaultAgrees(t.m, u.m, base, CodeOf(t.reply), va);
    } else {
      assert t.m.mem == u.m.mem;
      forall x: Word ensures Coherent(SetReg(t.m, rd, x)) { CoherentFrame(t.m, SetReg(t.m, rd, x)); }
    }
  }

  lemma StoreAgrees(m: Machine, w: Machine, base: Word, va: Word, x: Word, wide: bool)
    requires Coherent(m) && Twins(m, w) && SafeStore(m, va, wide)
    ensures Together(ExecStore(m, base, va, x, wide, true), ExecStore(w, base, va, x, wide, false))
  {
    hide Translate, Coherent, Read64, DeliverFault, OffCachedWalks, Write64;
    TranslateAgrees(m, w, va, Store);
    var t, u := Translate(m, va, Store, true), Translate(w, va, Store, false);
    if t.reply.Fault? {
      FaultAgrees(t.m, u.m, base, CodeOf(t.reply), va);
    } else {
      var pa := t.reply.pa;
      if wide && pa + 8 <= RAM_SIZE {
        WriteWithin(t.m.mem, pa, x);
        StoreCoherent(t.m, Write64(t.m.mem, pa, x), pa, 8);
      } else if !wide && pa != SERIAL_DATA && pa != SERIAL_STATUS && pa < RAM_SIZE {
        StoreCoherent(t.m, t.m.mem[pa := x % 256], pa, 1);
      } else {
        CoherentFrame(t.m, t.m.(out := t.m.out + [x % 256]));
      }
    }
  }

  lemma WriteWithin(mem: Ram8, a: nat, x: Word)
    requires a + 8 <= RAM_SIZE
    ensures DiffersWithin(mem, Write64(mem, a, x), a, 8)
  {}

  lemma StoreCoherent(m: Machine, mem': Ram8, a: nat, n: nat)
    requires Coherent(m) && OffCachedWalks(m, a, n) && DiffersWithin(m.mem, mem', a, n)
    ensures Coherent(m.(mem := mem'))
  {
    OffWalksKeepsCoherent(m, mem', a, n);
  }

  lemma CsrAgrees(m: Machine, w: Machine, csr: nat, x: Word)
    requires Coherent(m) && Twins(m, w) && csr < 256
    ensures Twins(WriteCsr(m, csr, x), WriteCsr(w, csr, x)) && Coherent(WriteCsr(m, csr, x))
  {
    hide Coherent;
    var m1 := m.(csrs := m.csrs[csr := x]);
    var m2 := if csr == CSR_TIMER then m1.(timer := m.timer.(interval := x, counter := x)) else m1;
    if csr == CSR_PTBR || csr == CSR_PMODE {
      FlushCoherent(m2);
    } else {
      CoherentFrame(m, m2);
    }
  }

  /** Register, branch and mode instructions: neither memory, CSRs nor the TLB. */
  predicate Plain(opcode: nat) {
    opcode != LOAD8 && opcode != LOAD64 && opcode != STORE8 && opcode != STORE64 && opcode != WRCSR && opcode != SFENCE
  }

  /** e is d with another TLB, and d kept memory, CSRs and TLB of m. */
  ghost predicate PlainStep(m: Machine, d: Done, e: Done) {
    || (d.Crash? && e.Crash?)
    || (d.Next? && e.Next? && Twins(d.m, e.m) && d.m.mem == m.mem && d.m.csrs == m.csrs && d.m.tlb == m.tlb)
  }

  lemma PlainOps(m: Machine, w: Machine, base: Word, word: Word)
    requires Plain(Opcode(word)) && Twins(m, w)
    ensures PlainStep(m, Exec(m, base, word, true), Exec(w, base, word, false))
  {
    hide ExecLoad, ExecStore, WriteCsr, Opcode, Rd, Rs1, Rs2, Imm, AndWord, OrWord, Read64, FlushTlb, Wrap;
  }

  /** Whatever the instruction word, executing it keeps the two machines together. */
  lemma ExecAgrees(m: Machine, w: Machine, base: Word, word: Word)
    requires Coherent(m) && Twins(m, w) && SafeWord(m, word)
    ensures Together(Exec(m, base, word, true), Exec(w, base, word, false))
  {
    if Plain(Opcode(word)) {
      hide Coherent, Exec, Opcode;
      PlainOps(m, w, base, word);
      var d := Exec(m, base, word, true);
      if d.Next? {
        CoherentFrame(m, d.m);
      }
    } else {
      MemoryOpAgrees(m, w, base, word);
    }
  }

  lemma MemoryOpAgrees(m: Machine, w: Machine, base: Word, word: Word)
    requires Coherent(m) && Twins(m, w) && SafeWord(m, word) && !Plain(Opcode(word))
    ensures Together(Exec(m, base, word, true), Exec(w, base, word, false))
  {
    hide Coherent, ExecLoad, ExecStore, WriteCsr, Opcode, Rd, Rs1, Rs2, Imm, Read64, SafeStore;
    var rd, imm := Rd(word), Imm(word);
    var a, b := m.regs[Rs1(word)], m.regs[Rs2(word)];
    var va := Wrap(a + imm);
    match Opcode(word) {
      case 0x07 => LoadAgrees(m, w, base, rd, va, false);
      case 0x08 => LoadAgrees(m, w, base, rd, va, true);
      case 0x09 => StoreAgrees(m, w, base, va, b, false);
      case 0x0A => StoreAgrees(m, w, base, va, b, true);
      case 0x12 => CsrAgrees(m, w, Wrap(imm) % 256, a);
      case _ => FlushCoherent(m);
    }
  }

  lemma RetireAgrees(m: Machine, w: Machine)
    requires Coherent(m) && Twins(m, w)
    ensures Twins(Retire(m), Retire(w)) && Coherent(Retire(m))
  {
    hide Coherent, Tick;
    CoherentFrame(m, Retire(m));
  }

  /** One step of any machine with a coherent TLB, unless it stores over a cached walk, does what
      one step of the machine that always walks does, and leaves the TLB coherent. */
  lemma StepAgrees(m: Machine, w: Machine)
    requires Coherent(m) && Twins(m, w) && SafeStep(m)
    ensures OutcomesAgree(Step(m, true), Step(w, false))
  {
    hide Coherent, Translate, Exec, Retire, DeliverFault, Read64, SafeWord;
    if Interrupted(m) {
      CoherentFrame(m, Enter(m.(timer := m.timer.(pending := false)), m.pc, INT_VECTOR));
    } else {
      TranslateAgrees(m, w, m.pc, Fetch);
      var t, u := Fetched(m, true), Fetched(w, false);
      if t.reply.Fault? {
        FaultAgrees(t.m, u.m, m.pc, CodeOf(t.reply), m.pc);
      } else if t.reply.pa + 8 <= RAM_SIZE && t.reply.pa % 8 == 0 {
        var m1, w1 := t.m.(pc := Wrap(m.pc + 8)), u.m.(pc := Wrap(m.pc + 8));
        CoherentFrame(t.m, m1);
        var word := Read64(t.m.mem, t.reply.pa);
        ExecAgrees(m1, w1, m.pc, word);
        var d, e := Exec(m1, m.pc, word, true), Exec(w1, m.pc, word, false);
        if d.Next? {
          RetireAgrees(d.m, e.m);
        }
      }
    }
  }

  // ---- Runs ----------------------------------------------------------------------------

  /** Every store in the first n steps is off the cached walks at that moment. */
  ghost predicate SafeRun(m: Machine, n: nat)
    decreases n
  {
    n == 0 || m.halted ||
    (SafeStep(m) && match Step(m, true)
       case Ok(m') => SafeRun(m', n - 1)
       case Err => true)
  }

  /** After every step of a safe run the two machines have the same registers, pc, memory, CSRs,
      timer, modes and serial output, or both have stopped with an error. */
  lemma {:induction false} RunsAgree(m: Machine, w: Machine, n: nat)
    requires Coherent(m) && Twins(m, w) && SafeRun(m, n)
    ensures OutcomesAgree(Run(m, n, true), Run(w, n, false))
    decreases n
  {
    hide Coherent, Step, SafeStep;
    if n > 0 && !m.halted {
      StepAgrees(m, w);
      if Step(m, true).Ok? {
        RunsAgree(Step(m, true).m, Step(w, false).m, n - 1);
      }
    }
  }

  // ---- A fresh machine --------------------------------------------------------------------

  const LOAD_ADDR := 0x40_0000

  /** `load_binary`: as much of the image as fits above LOAD_ADDR. */
  function Loaded(mem: Ram8, image: seq<u8>): Ram8 {
    var n := if LOAD_ADDR + |image| <= RAM_SIZE then |image| else RAM_SIZE - LOAD_ADDR;
    mem[..LOAD_ADDR] + image[..n] + mem[LOAD_ADDR + n..]
  }

  /** `Machine::new` on memory `ram`, all registers but the stack pointer zero. */
  ghost predicate Fresh(m: Machine) {
    && (forall r | 0 <= r < 15 :: m.regs[r] == 0) && m.regs[15] == RAM_SIZE
    && m.pc == LOAD_ADDR && (forall c | 0 <= c < 256 :: m.csrs[c] == 0)
    && (forall k | 0 <= k < TLB_SIZE :: m.tlb[k] == EMPTY_ENTRY)
    && !m.halted && m.mode == Mode(false, false, true, 0) && m.timer == Timer(0, 0, false) && m.out == []
  }

  /** From reset, for every image and every number of steps. */
  lemma ImageRunsAgree(m: Machine, image: seq<u8>, n: nat)
    requires Fresh(m) && SafeRun(m.(mem := Loaded(m.mem, image)), n)
    ensures var m1 := m.(mem := Loaded(m.mem, image)); OutcomesAgree(Run(m1, n, true), Run(m1, n, false))
  {
    hide Loaded, SafeRun, Run;
    var m1 := m.(mem := Loaded(m.mem, image));
    assert Coherent(m1);
    RunsAgree(m1, m1, n);
  }
}
