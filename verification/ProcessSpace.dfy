// A process's page tables as build_tables makes them: where they lie, and what
// keeps them standing.

module ProcessSpace {
  import opened Mik64Mmu
  import opened Mik64Tlb
  import opened Mik64Cpu
  import opened Mik64Bisim
  import opened FlatCode
  import opened IdentityMap
  import opened SupervisorCode

  /** The tables: the kernel chain with its four leaf tables at pt, and the process's PT4 below it. */
  datatype Tables = Tables(pml4: nat, pdpt: nat, pd: nat, pt: nat, pt4: nat)

  /** Distinct pages in RAM. */
  predicate TablesOk(t: Tables) {
    && t.pml4 % 4096 == 0 && t.pdpt % 4096 == 0 && t.pd % 4096 == 0 && t.pt % 4096 == 0 && t.pt4 % 4096 == 0
    && t.pml4 + 4096 <= RAM_SIZE && t.pdpt + 4096 <= RAM_SIZE && t.pd + 4096 <= RAM_SIZE
    && t.pt + 0x4000 <= RAM_SIZE && t.pt4 + 4096 <= RAM_SIZE
    && Apart(t.pml4, 4096, t.pt, 0x4000) && Apart(t.pdpt, 4096, t.pt, 0x4000) && Apart(t.pd, 4096, t.pt, 0x4000)
    && Apart(t.pt4, 4096, t.pt, 0x4000) && t.pt4 != t.pml4 && t.pt4 != t.pdpt && t.pt4 != t.pd
  }

  /** The kernel half identity-mapped, the region of PT4 if the kernel has given this root one, and
      nothing else. */
  ghost predicate Space(mem: Ram8, t: Tables) {
    && TablesOk(t) && KernelChain(mem, t.pml4, t.pdpt, t.pd, t.pt) && Closed(mem, t.pml4, t.pdpt, t.pd)
    && (Absent(mem, t.pd + 32) || Holds(mem, t.pd + 32, t.pt4 + 3))
  }

  function PagesOf(t: Tables): set<nat> {
    {t.pml4 / 4096, t.pdpt / 4096, t.pd / 4096, t.pt4 / 4096,
     t.pt / 4096, t.pt / 4096 + 1, t.pt / 4096 + 2, t.pt / 4096 + 3}
  }

  function EnvOf(t: Tables, cached: bool): Env { Env(KERNEL_TOP, t.pt, t.pt + 0x4000, PagesOf(t), cached) }

  /** What paging looks like to the kernel in such a space. */
  lemma SpacePaged(m: Machine, t: Tables, cached: bool)
    requires Space(m.mem, t) && Root(m) == t.pml4 && (cached ==> Coherent(m))
    ensures EnvOk(EnvOf(t, cached)) && Paged(m, EnvOf(t, cached))
  {
    hide KernelChain, Closed, Holds, Ident, TablesIn, Root, Coherent;
    ChainIdent(m.mem, t.pml4, t.pdpt, t.pd, t.pt);
    SpaceTables(m.mem, t);
  }

  // ---- Where walks look ---------------------------------------------------------------------------

  /** Byte b of entry i of the page-sized table at p. */
  lemma EntryPage(p: nat, i: nat, b: nat)
    requires p % 4096 == 0 && i < 512 && p + i * 8 <= b < p + i * 8 + 8
    ensures b / 4096 == p / 4096
  {}

  lemma SpaceTables(mem: Ram8, t: Tables)
    requires Space(mem, t)
    ensures TablesIn(mem, t.pml4, PagesOf(t))
  {
    hide Visits, Space, PagesOf;
    forall va: nat, b: nat | Visits(mem, t.pml4, va, 3, b) ensures b / 4096 in PagesOf(t) {
      VisitPml4(mem, t, va, b);
    }
  }

  lemma VisitPml4(mem: Ram8, t: Tables, va: nat, b: nat)
    requires Space(mem, t) && Visits(mem, t.pml4, va, 3, b)
    ensures b / 4096 in PagesOf(t)
  {
    hide Read64, Ppn, PteP, PteW, PteU, PteNx, SameEntry, KernelPd, Ix;
    var i := Ix(va, 3);
    if t.pml4 + i * 8 <= b < t.pml4 + i * 8 + 8 {
      EntryPage(t.pml4, i, b);
    } else {
      OnlyAt(mem, t.pml4, 1, i);
      TableEntry(Read64(mem, t.pml4), t.pdpt);
      VisitPdpt(mem, t, va, b);
    }
  }

  lemma VisitPdpt(mem: Ram8, t: Tables, va: nat, b: nat)
    requires Space(mem, t) && Visits(mem, t.pdpt, va, 2, b)
    ensures b / 4096 in PagesOf(t)
  {
    hide Read64, Ppn, PteP, PteW, PteU, PteNx, SameEntry, KernelPd, Ix;
    var i := Ix(va, 2);
    if t.pdpt + i * 8 <= b < t.pdpt + i * 8 + 8 {
      EntryPage(t.pdpt, i, b);
    } else {
      OnlyAt(mem, t.pdpt, 1, i);
      TableEntry(Read64(mem, t.pdpt), t.pd);
      VisitPd(mem, t, va, b);
    }
  }

  /** The table that entry i of the directory leads to. */
  function LeafTable(t: Tables, i: nat): nat { if i < 4 then t.pt + 0x1000 * i else t.pt4 }

  lemma PdEntry(mem: Ram8, t: Tables, i: nat)
    requires Space(mem, t) && i < 512
    ensures t.pd + i * 8 + 8 <= RAM_SIZE
    ensures var w := Read64(mem, t.pd + i * 8);
      PteP(w) ==> i < 5 && Ppn(w) * 4096 == LeafTable(t, i)
  {
    hide Read64, Ppn, PteP, PteW, PteU, PteNx, SameEntry, LeafTables;
    var w := Read64(mem, t.pd + i * 8);
    if PteP(w) {
      OnlyAt(mem, t.pd, 5, i);
      if i < 4 {
        assert Holds(mem, t.pd + 8 * i, t.pt + 0x1000 * i + 3);
        assert (t.pt + 0x1000 * i) % 4096 == 0 by { NextPage(t.pt, i); }
        TableEntry(w, t.pt + 0x1000 * i);
      } else {
        TableEntry(w, t.pt4);
      }
    }
  }

  lemma NextPage(p: nat, i: nat)
    requires p % 4096 == 0
    ensures (p + 0x1000 * i) % 4096 == 0 && (p + 0x1000 * i) / 4096 == p / 4096 + i
  {}

  lemma VisitPd(mem: Ram8, t: Tables, va: nat, b: nat)
    requires Space(mem, t) && Visits(mem, t.pd, va, 1, b)
    ensures b / 4096 in PagesOf(t)
  {
    hide Read64, Ppn, PteP, Space, Ix;
    var i := Ix(va, 1);
    PdEntry(mem, t, i);
    assert TablesOk(t) by { SpaceOk(mem, t); }
    if t.pd + i * 8 <= b < t.pd + i * 8 + 8 {
      EntryPage(t.pd, i, b);
    } else {
      var p := LeafTable(t, i);
      NextPage(t.pt, i);
      EntryPage(p, Ix(va, 0), b);
    }
  }

  lemma SpaceOk(mem: Ram8, t: Tables)
    requires Space(mem, t)
    ensures TablesOk(t)
  {}

  // ---- The entries of PT4 --------------------------------------------------------------------------

  /** An entry of PT4. */
  predicate EntryIn(t: Tables, e: nat) { t.pt4 <= e && e + 8 <= t.pt4 + 4096 && e % 8 == 0 }

  /** No walk goes through an entry of PT4; it only ends there. */
  lemma EntryIsLast(mem: Ram8, t: Tables, e: nat, va: nat)
    requires Space(mem, t) && EntryIn(t, e)
    ensures UpperAvoids(mem, t.pml4, va, 3, e)
  {
    hide Read64, Ppn, PteP, PteW, PteU, PteNx, SameEntry, KernelPd, Ix;
    var i, j, k := Ix(va, 3), Ix(va, 2), Ix(va, 1);
    PagesApart(t.pt4, t.pml4);
    PagesApart(t.pt4, t.pdpt);
    PagesApart(t.pt4, t.pd);
    PdEntry(mem, t, k);
    assert UpperAvoids(mem, t.pd, va, 1, e) by { PdAvoids(mem, t, e, va); }
    OnlyAt(mem, t.pdpt, 1, j);
    TableEntry(Read64(mem, t.pdpt), t.pd);
    assert UpperAvoids(mem, t.pdpt, va, 2, e);
    OnlyAt(mem, t.pml4, 1, i);
    TableEntry(Read64(mem, t.pml4), t.pdpt);
  }

  lemma PdAvoids(mem: Ram8, t: Tables, e: nat, va: nat)
    requires TablesOk(t) && EntryIn(t, e)
    ensures UpperAvoids(mem, t.pd, va, 1, e)
  {
    hide Read64, Ppn, PteP, Ix;
    PagesApart(t.pt4, t.pd);
    assert t.pd + Ix(va, 1) * 8 != e;
    Level0(mem, Ppn(Read64(mem, t.pd + Ix(va, 1) * 8)) * 4096, va, e);
  }

  lemma Level0(mem: Ram8, table: nat, va: nat, e: nat)
    ensures UpperAvoids(mem, table, va, 0, e)
  {}

  /** An absent entry of PT4 may be filled in. */
  lemma EntryHarmless(mem: Ram8, t: Tables, e: nat)
    requires Space(mem, t) && EntryIn(t, e) && Absent(mem, e)
    ensures Harmless(mem, t.pml4, e, PagesOf(t))
  {
    hide Space, PteP, Read64, UpperAvoids;
    forall va: nat ensures UpperAvoids(mem, t.pml4, va, 3, e) {
      EntryIsLast(mem, t, e, va);
    }
  }

  // ---- What keeps a space standing ------------------------------------------------------------------

  lemma PageAligned(p: nat, k: nat)
    requires p % 4096 == 0
    ensures (p + 8 * k) % 8 == 0
  {
    var q := p / 4096;
    assert p + 8 * k == 8 * (512 * q + k);
  }

  lemma SameFlip(u: Word, w: Word)
    requires SameEntry(u, w)
    ensures SameEntry(w, u)
  {}

  /** Two memories agree, up to A and D, on this entry. */
  ghost predicate Agree(mem: Ram8, mem': Ram8, a: nat) {
    a + 8 <= RAM_SIZE ==> SameEntry(Read64(mem, a), Read64(mem', a))
  }

  /** They agree on the n entries at p. */
  ghost predicate TableAgrees(mem: Ram8, mem': Ram8, p: nat, n: nat) {
    forall i: nat | i < n :: Agree(mem, mem', p + 8 * i)
  }

  /** They agree on every entry above PT4. */
  ghost predicate AgreeAbove(mem: Ram8, mem': Ram8, t: Tables) {
    && TableAgrees(mem, mem', t.pml4, 512) && TableAgrees(mem, mem', t.pdpt, 512) && TableAgrees(mem, mem', t.pd, 512)
    && TableAgrees(mem, mem', t.pt, 2048)
  }

  lemma HoldsAgree(mem: Ram8, mem': Ram8, a: nat, w: nat)
    requires Agree(mem, mem', a) && Holds(mem, a, w)
    ensures Holds(mem', a, w)
  {
    hide SameEntry, Read64;
    SameFlip(Read64(mem, a), Read64(mem', a));
    SameTrans(Read64(mem', a), Read64(mem, a), w);
  }

  lemma OnlyAgree(mem: Ram8, mem': Ram8, table: nat, n: nat)
    requires Only(mem, table, n) && TableAgrees(mem, mem', table, 512)
    ensures Only(mem', table, n)
  {
    hide Read64, PteP, PteW, PteU, PteNx, Ppn;
    forall i: nat | n <= i < 512 ensures Absent(mem', table + 8 * i) {
      OnlyAt(mem, table, n, i);
      assert Agree(mem, mem', table + 8 * i);
    }
  }

  /** A space depends on the entries above PT4 only. */
  lemma SpaceKept(mem: Ram8, mem': Ram8, t: Tables)
    requires Space(mem, t) && AgreeAbove(mem, mem', t)
    ensures Space(mem', t)
  {
    hide Agree, Holds, LeafTables, Absent;
    AgreeAt(mem, mem', t, 0);
    HoldsAgree(mem, mem', t.pml4, t.pdpt + 3);
    HoldsAgree(mem, mem', t.pdpt, t.pd + 3);
    forall j: nat | j < 4 ensures Holds(mem', t.pd + 8 * j, t.pt + 0x1000 * j + 3) {
      AgreeAt(mem, mem', t, j);
      HoldsAgree(mem, mem', t.pd + 8 * j, t.pt + 0x1000 * j + 3);
    }
    LeavesKept(mem, mem', t);
    OnlyAgree(mem, mem', t.pml4, 1);
    OnlyAgree(mem, mem', t.pdpt, 1);
    OnlyAgree(mem, mem', t.pd, 5);
    AgreeAt(mem, mem', t, 4);
    if Absent(mem, t.pd + 32) {
      AbsentAgree(mem, mem', t.pd + 32);
    } else {
      HoldsAgree(mem, mem', t.pd + 32, t.pt4 + 3);
    }
  }

  lemma AbsentAgree(mem: Ram8, mem': Ram8, a: nat)
    requires Agree(mem, mem', a) && Absent(mem, a)
    ensures Absent(mem', a)
  {
    hide Read64, PteW, PteU, PteNx, Ppn;
  }

  lemma AgreeAt(mem: Ram8, mem': Ram8, t: Tables, i: nat)
    requires AgreeAbove(mem, mem', t) && i < 512
    ensures Agree(mem, mem', t.pml4 + 8 * i) && Agree(mem, mem', t.pdpt + 8 * i) && Agree(mem, mem', t.pd + 8 * i)
  {}

  lemma LeavesKept(mem: Ram8, mem': Ram8, t: Tables)
    requires AgreeAbove(mem, mem', t) && LeafTables(mem, t.pt)
    ensures LeafTables(mem', t.pt)
  {
    hide Holds, Agree;
    forall n: nat | n < 2048 ensures Holds(mem', t.pt + 8 * n, 4096 * n + 3) {
      LeafOf(mem, t.pt, n);
      HoldsAgree(mem, mem', t.pt + 8 * n, 4096 * n + 3);
    }
  }

  /** Marks keep it. */
  lemma SpaceAlike(mem: Ram8, mem': Ram8, t: Tables)
    requires Space(mem, t) && SameTables(mem, mem')
    ensures Space(mem', t)
  {
    hide Space, TableAgrees, SameTables;
    SpaceOk(mem, t);
    TableSame(mem, mem', t.pml4, 512);
    TableSame(mem, mem', t.pdpt, 512);
    TableSame(mem, mem', t.pd, 512);
    TableSame(mem, mem', t.pt, 2048);
    SpaceKept(mem, mem', t);
  }

  lemma TableSame(mem: Ram8, mem': Ram8, p: nat, n: nat)
    requires SameTables(mem, mem') && p % 4096 == 0
    ensures TableAgrees(mem, mem', p, n)
  {
    hide SameEntry, Read64;
    forall i: nat | i < n ensures Agree(mem, mem', p + 8 * i) {
      PageAligned(p, i);
    }
  }

  /** So does a store into PT4 or off the tables. */
  lemma SpaceStored(mem: Ram8, t: Tables, a: nat, w: Word)
    requires Space(mem, t) && a % 8 == 0 && a + 8 <= RAM_SIZE && (a / 4096 !in PagesOf(t) || EntryIn(t, a))
    ensures Space(Write64(mem, a, w), t)
  {
    hide Space, TableAgrees, Write64;
    SpaceOk(mem, t);
    StoreApart(t, a);
    TableStored(mem, t.pml4, 512, a, w);
    TableStored(mem, t.pdpt, 512, a, w);
    TableStored(mem, t.pd, 512, a, w);
    TableStored(mem, t.pt, 2048, a, w);
    SpaceKept(mem, Write64(mem, a, w), t);
  }

  lemma TableStored(mem: Ram8, p: nat, n: nat, a: nat, w: Word)
    requires a + 8 <= RAM_SIZE && Apart(p, 8 * n, a, 8)
    ensures TableAgrees(mem, Write64(mem, a, w), p, n)
  {
    hide Agree, Write64;
    forall i: nat | i < n ensures Agree(mem, Write64(mem, a, w), p + 8 * i) {
      KeptEntry(mem, p + 8 * i, a, w);
    }
  }

  lemma KeptEntry(mem: Ram8, x: nat, a: nat, w: Word)
    requires a + 8 <= RAM_SIZE && Apart(x, 8, a, 8)
    ensures Agree(mem, Write64(mem, a, w), x)
  {
    hide Read64, Write64;
    if x + 8 <= RAM_SIZE {
      ReadApart(mem, a, w, x);
      Reflexive(Read64(mem, x));
    }
  }

  lemma StoreApart(t: Tables, a: nat)
    requires TablesOk(t) && a % 8 == 0 && (a / 4096 !in PagesOf(t) || EntryIn(t, a))
    ensures Apart(t.pml4, 4096, a, 8) && Apart(t.pdpt, 4096, a, 8) && Apart(t.pd, 4096, a, 8) && Apart(t.pt, 0x4000, a, 8)
  {
    if EntryIn(t, a) {
      PagesApart(t.pt4, t.pml4);
      PagesApart(t.pt4, t.pdpt);
      PagesApart(t.pt4, t.pd);
    } else {
      OffPage(t.pml4, a);
      OffPage(t.pdpt, a);
      OffPage(t.pd, a);
      NextPage(t.pt, 1);
      NextPage(t.pt, 2);
      NextPage(t.pt, 3);
      OffPage(t.pt, a);
      OffPage(t.pt + 0x1000, a);
      OffPage(t.pt + 0x2000, a);
      OffPage(t.pt + 0x3000, a);
    }
  }
}
