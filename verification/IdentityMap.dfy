// The page tables the kernel builds: what a walk through them finds.

module IdentityMap {
  import opened Mik64Mmu

  /** The kernel's half of every address space: 8 MiB. */
  const KERNEL_TOP := 0x80_0000

  /** An entry that is `v` up to its A and D bits. */
  ghost predicate Holds(mem: Ram8, a: nat, v: nat) {
    a + 8 <= RAM_SIZE && v < 0x1_0000_0000_0000_0000 && SameEntry(Read64(mem, a), v)
  }

  /** The leaf tables PT0..PT3 that follow one another at pt: page n of the kernel half maps to itself. */
  ghost predicate LeafTables(mem: Ram8, pt: nat) {
    pt + 0x4000 <= RAM_SIZE && forall n: nat | n < 2048 :: Holds(mem, pt + 8 * n, 4096 * n + 3)
  }

  /** A page directory whose first four entries are those leaf tables. */
  ghost predicate KernelPd(mem: Ram8, pd: nat, pt: nat) {
    && pt % 4096 == 0 && LeafTables(mem, pt)
    && (forall j: nat | j < 4 :: Holds(mem, pd + 8 * j, pt + 0x1000 * j + 3))
  }

  /** A PML4 and PDPT that lead to that directory. */
  ghost predicate KernelChain(mem: Ram8, pml4: nat, pdpt: nat, pd: nat, pt: nat) {
    && pdpt % 4096 == 0 && pd % 4096 == 0 && pdpt < RAM_SIZE && pd < RAM_SIZE && KernelPd(mem, pd, pt)
    && Holds(mem, pml4, pdpt + 3) && Holds(mem, pdpt, pd + 3)
  }

  /** A table entry `a | P | W` is present and leads to a. */
  lemma TableEntry(w: Word, a: nat)
    requires a % 4096 == 0 && a < 0x1_0000_0000 && SameEntry(w, a + 3)
    ensures PteP(w) && PteW(w) && !PteU(w) && !PteNx(w) && Ppn(w) * 4096 == a
  {
    LowKept(3, a / 8);
    PageBits(a, 3);
  }

  /** Flag bits do not reach the page number. */
  lemma PageBits(a: nat, flags: nat)
    requires a % 4096 == 0 && a < 0x1_0000_0000 && flags < 8
    ensures Ppn(a + flags) * 4096 == a && !PteNx(a + flags) && flags + 8 * (a / 8) == a + flags
  {
    hide Ppn, PteNx;
    NotNx(a + flags);
    PageNumber(a / 4096, flags);
    Eighth(a / 4096);
    assert a == 4096 * (a / 4096);
  }

  lemma PageNumber(q: nat, flags: nat)
    requires q < 0x10_0000 && flags < 8
    ensures Ppn(4096 * q + flags) == q
  {
    PageDiv(q, flags);
    Small36(q);
  }

  lemma Small36(q: nat)
    requires q < 0x10_0000
    ensures q % 0x10_0000_0000 == q
  {}

  lemma Eighth(q: nat)
    ensures 4096 * q / 8 == 512 * q
  {}

  lemma PageDiv(q: nat, r: nat)
    requires r < 4096
    ensures (4096 * q + r) / 4096 == q
  {}

  lemma NotNx(w: Word)
    requires w < 0x2_0000_0000
    ensures !PteNx(w)
  {}

  /** Where a walk of the kernel half ends: the leaf of its own page. */
  lemma KernelWalk(mem: Ram8, pml4: nat, pdpt: nat, pd: nat, pt: nat, va: nat)
    requires KernelChain(mem, pml4, pdpt, pd, pt) && va < KERNEL_TOP
    ensures var a := pt + 8 * (va / 4096);
      Holds(mem, a, 4096 * (va / 4096) + 3) && Walk(mem, pml4, va, 3) == Leaf(a, Read64(mem, a))
  {
    hide SameEntry, Read64, Ppn, PteP, LeafTables;
    KernelIx(va);
    var j, n := va / 0x20_0000, va / 4096;
    assert Holds(mem, pd + 8 * j, pt + 0x1000 * j + 3);
    assert Holds(mem, pt + 8 * n, 4096 * n + 3) by { LeafOf(mem, pt, n); }
    TableEntry(Read64(mem, pml4), pdpt);
    TableEntry(Read64(mem, pdpt), pd);
    TableEntry(Read64(mem, pd + 8 * j), pt + 0x1000 * j);
    TableEntry(Read64(mem, pt + 8 * n), 4096 * n);
    assert Walk(mem, pt + 0x1000 * j, va, 0) == Leaf(pt + 8 * n, Read64(mem, pt + 8 * n));
    assert Walk(mem, pd, va, 1) == Walk(mem, pt + 0x1000 * j, va, 0);
    assert Walk(mem, pdpt, va, 2) == Walk(mem, pd, va, 1);
  }

  lemma LeafOf(mem: Ram8, pt: nat, n: nat)
    requires LeafTables(mem, pt) && n < 2048
    ensures Holds(mem, pt + 8 * n, 4096 * n + 3)
  {}

  lemma KernelIx(va: nat)
    requires va < KERNEL_TOP
    ensures Ix(va, 3) == 0 && Ix(va, 2) == 0 && Ix(va, 1) == va / 0x20_0000 < 4
    ensures 512 * (va / 0x20_0000) + Ix(va, 0) == va / 4096 < 2048
  {
    assert va / 4096 / 512 == va / 0x20_0000;
  }

  /** With such tables the supervisor's addresses below 8 MiB are their own physical addresses, for
      every kind of access. */
  lemma IdentityTranslates(m: Machine, pml4: nat, pdpt: nat, pd: nat, pt: nat, va: nat, access: Access)
    requires Root(m) == pml4 && KernelChain(m.mem, pml4, pdpt, pd, pt) && va < KERNEL_TOP && !m.mode.user
    ensures Translate(m, va, access, false).reply == Pa(va)
  {
    hide KernelChain, Walk, SameEntry, Ppn, PteP, PteW, PteU, PteNx, Read64, Root, Marked;
    KernelWalk(m.mem, pml4, pdpt, pd, pt, va);
    var n, a := va / 4096, pt + 8 * (va / 4096);
    TableEntry(Read64(m.mem, a), 4096 * n);
    assert WalkOf(m, va) == Leaf(a, Read64(m.mem, a));
    assert 4096 * n + va % 4096 == va;
  }

  // ---- A process's tables --------------------------------------------------------------------

  const USER_VA := 0x80_0000
  const USER_TOP := 0xA0_0000

  /** What build_tables makes: its own PML4, PDPT and PD, whose PD shares the kernel's first four
      entries and has the process's PT4 as its fifth. */
  ghost predicate ProcessChain(mem: Ram8, kpd: nat, pml4: nat, pdpt: nat, pd: nat, pt4: nat, upage: nat) {
    && pdpt % 4096 == 0 && pd % 4096 == 0 && pt4 % 4096 == 0 && upage % 4096 == 0
    && pdpt < RAM_SIZE && pd < RAM_SIZE && pt4 + 4096 <= RAM_SIZE && upage < RAM_SIZE
    && Holds(mem, pml4, pdpt + 3) && Holds(mem, pdpt, pd + 3)
    && kpd + 32 <= RAM_SIZE && (forall j: nat | j < 4 :: Holds(mem, pd + 8 * j, Read64(mem, kpd + 8 * j)))
    && Holds(mem, pd + 32, pt4 + 3) && Holds(mem, pt4, upage + 7)
  }

  lemma SameTrans(u: Word, v: Word, w: Word)
    requires SameEntry(u, v) && SameEntry(v, w)
    ensures SameEntry(u, w)
  {}

  /** Sharing the kernel's directory entries gives the kernel's chain. */
  lemma ProcessHasKernel(mem: Ram8, kpd: nat, pt: nat, pml4: nat, pdpt: nat, pd: nat, pt4: nat, upage: nat)
    requires ProcessChain(mem, kpd, pml4, pdpt, pd, pt4, upage) && KernelPd(mem, kpd, pt)
    ensures KernelChain(mem, pml4, pdpt, pd, pt)
  {
    hide SameEntry, Read64, LeafTables;
    forall j: nat | j < 4 ensures Holds(mem, pd + 8 * j, pt + 0x1000 * j + 3) {
      assert Holds(mem, kpd + 8 * j, pt + 0x1000 * j + 3);
      assert Holds(mem, pd + 8 * j, Read64(mem, kpd + 8 * j));
      SameTrans(Read64(mem, pd + 8 * j), Read64(mem, kpd + 8 * j), pt + 0x1000 * j + 3);
    }
  }

  /** Below 8 MiB every process's tables and the kernel's lead to the same leaf entry. */
  lemma SwitchKeepsKernel(mem: Ram8, k4: nat, k3: nat, kpd: nat, pt: nat,
                          pml4: nat, pdpt: nat, pd: nat, pt4: nat, upage: nat, va: nat)
    requires KernelChain(mem, k4, k3, kpd, pt) && ProcessChain(mem, kpd, pml4, pdpt, pd, pt4, upage) && va < KERNEL_TOP
    ensures Walk(mem, pml4, va, 3) == Walk(mem, k4, va, 3) && Walk(mem, pml4, va, 3).Leaf?
  {
    KernelWalk(mem, k4, k3, kpd, pt, va);
    ProcessHasKernel(mem, kpd, pt, pml4, pdpt, pd, pt4, upage);
    KernelWalk(mem, pml4, pdpt, pd, pt, va);
  }

  /** A chain from pml4 to the PT4 of the 8 to 10 MiB region. */
  ghost predicate UserChain(mem: Ram8, pml4: nat, pdpt: nat, pd: nat, pt4: nat) {
    && pdpt % 4096 == 0 && pd % 4096 == 0 && pt4 % 4096 == 0 && pdpt < RAM_SIZE && pd < RAM_SIZE && pt4 + 4096 <= RAM_SIZE
    && Holds(mem, pml4, pdpt + 3) && Holds(mem, pdpt, pd + 3) && Holds(mem, pd + 32, pt4 + 3)
  }

  /** From 8 to 10 MiB a process's walk ends in its own PT4: at the entry of that page if present,
      nowhere otherwise. */
  lemma UserWalk(mem: Ram8, pml4: nat, pdpt: nat, pd: nat, pt4: nat, va: nat)
    requires UserChain(mem, pml4, pdpt, pd, pt4) && USER_VA <= va < USER_TOP
    ensures var a := pt4 + 8 * (va / 4096 % 512);
      Walk(mem, pml4, va, 3) == if PteP(Read64(mem, a)) then Leaf(a, Read64(mem, a)) else NoPage
  {
    hide SameEntry, Read64, Ppn, PteP, PteW, PteU, PteNx;
    UserIx(va);
    TableEntry(Read64(mem, pml4), pdpt);
    TableEntry(Read64(mem, pdpt), pd);
    TableEntry(Read64(mem, pd + 32), pt4);
    var a := pt4 + 8 * (va / 4096 % 512);
    assert Walk(mem, pt4, va, 0) == if PteP(Read64(mem, a)) then Leaf(a, Read64(mem, a)) else NoPage;
    assert Walk(mem, pd, va, 1) == Walk(mem, pt4, va, 0);
    assert Walk(mem, pdpt, va, 2) == Walk(mem, pd, va, 1);
  }

  /** A process's first user page is mapped, for the user, writable. */
  lemma UserPageMapped(mem: Ram8, kpd: nat, pml4: nat, pdpt: nat, pd: nat, pt4: nat, upage: nat, va: nat)
    requires ProcessChain(mem, kpd, pml4, pdpt, pd, pt4, upage) && USER_VA <= va < USER_VA + 4096
    ensures var l := Walk(mem, pml4, va, 3);
      l.Leaf? && Ppn(l.pte) * 4096 == upage && PteW(l.pte) && PteU(l.pte) && !PteNx(l.pte)
  {
    hide SameEntry, Read64, Ppn, PteP, PteW, PteU, PteNx, Walk;
    UserWalk(mem, pml4, pdpt, pd, pt4, va);
    UserIx(va);
    UserEntry(Read64(mem, pt4), upage);
  }

  lemma UserIx(va: nat)
    requires USER_VA <= va < USER_TOP
    ensures Ix(va, 3) == 0 && Ix(va, 2) == 0 && Ix(va, 1) == 4 && Ix(va, 0) == va / 4096 % 512
    ensures va < USER_VA + 4096 ==> va / 4096 % 512 == 0
  {
    assert va / 4096 / 512 == va / 0x20_0000;
  }

  lemma UserEntry(w: Word, a: nat)
    requires a % 4096 == 0 && a < 0x1_0000_0000 && SameEntry(w, a + 7)
    ensures PteP(w) && PteW(w) && PteU(w) && !PteNx(w) && Ppn(w) * 4096 == a
  {
    LowKept(7, a / 8);
    PageBits(a, 7);
  }

  // ---- Nothing else mapped ---------------------------------------------------------------------

  ghost predicate Absent(mem: Ram8, a: nat) { a + 8 <= RAM_SIZE && !PteP(Read64(mem, a)) }

  /** Only the first n entries of the table may be present. */
  ghost predicate Only(mem: Ram8, table: nat, n: nat) {
    forall i: nat | n <= i < 512 :: Absent(mem, table + 8 * i)
  }

  /** Beyond the kernel half and the region of PT4 the tables map nothing. */
  ghost predicate Closed(mem: Ram8, pml4: nat, pdpt: nat, pd: nat) {
    Only(mem, pml4, 1) && Only(mem, pdpt, 1) && Only(mem, pd, 5)
  }

  lemma OnlyAt(mem: Ram8, table: nat, n: nat, i: nat)
    requires Only(mem, table, n) && i < 512
    ensures n <= i ==> Absent(mem, table + 8 * i)
  {}
}
