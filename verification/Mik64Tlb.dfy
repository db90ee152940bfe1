// The TLB is invisible: as long as it agrees with the tables, a machine with
// it and a machine that walks every time do the same thing.

module Mik64Tlb {
  import opened Mik64Mmu

  // ---- Coherence --------------------------------------------------------------------

  /** A valid entry repeats what a walk of its page finds. */
  ghost predicate EntryOk(mem: Ram8, root: nat, e: TlbEntry) {
    && e.vpn < 0x10_0000_0000
    && var l := Walk(mem, root, e.vpn * 4096, 3);
    && l.Leaf? && l.addr == e.pteAddr
    && Ppn(l.pte) == e.ppn && PteW(l.pte) == e.writable && PteNx(l.pte) == e.nx && PteU(l.pte) == e.user
  }

  ghost predicate TlbCoherent(mem: Ram8, root: nat, tlb: Tlb) {
    forall k | 0 <= k < TLB_SIZE && tlb[k].valid :: tlb[k].vpn % 16 == k && EntryOk(mem, root, tlb[k])
  }

  ghost predicate Coherent(m: Machine) { TlbCoherent(m.mem, Root(m), m.tlb) }

  // ---- What a walk depends on ----------------------------------------------------------

  /** A walk reads only the page number of an address. */
  lemma {:induction false} WalkByPage(mem: Ram8, table: nat, va: nat, level: nat)
    requires level < 4
    ensures Walk(mem, table, va, level) == Walk(mem, table, va / 4096 * 4096, level)
    decreases level
  {
    hide Ix, Read64, Ppn;
    IxByPage(va, level);
    var a := table + Ix(va, level) * 8;
    if a + 8 <= RAM_SIZE && level > 0 {
      WalkByPage(mem, Ppn(Read64(mem, a)) * 4096, va, level - 1);
    }
  }

  lemma IxByPage(va: nat, level: nat)
    requires level < 4
    ensures Ix(va, level) == Ix(va / 4096 * 4096, level)
  {
    var p := va / 4096;
    assert p * 4096 / 4096 == p;
    assert va / 0x20_0000 == p / 512 && p * 4096 / 0x20_0000 == p / 512;
    assert va / 0x4000_0000 == p / 0x4_0000 && p * 4096 / 0x4000_0000 == p / 0x4_0000;
    assert va / 0x80_0000_0000 == p / 0x800_0000 && p * 4096 / 0x80_0000_0000 == p / 0x800_0000;
  }

  /** Every aligned word is the same entry up to A and D. */
  ghost predicate SameTables(mem: Ram8, mem': Ram8) {
    forall b: nat | b % 8 == 0 && b + 8 <= RAM_SIZE :: SameEntry(Read64(mem, b), Read64(mem', b))
  }

  /** Marking one aligned entry leaves all tables the same, even if the entry is also an upper
      level of some walk. */
  lemma MarkedSameTables(mem: Ram8, a: nat, access: Access)
    requires a % 8 == 0
    ensures SameTables(mem, Marked(mem, a, access))
  {
    hide SameEntry, Mark, Write64, Read64;
    forall b: nat | b % 8 == 0 && b + 8 <= RAM_SIZE
      ensures SameEntry(Read64(mem, b), Read64(Marked(mem, a, access), b))
    {
      Reflexive(Read64(mem, b));
      if a + 8 <= RAM_SIZE {
        var pte := Read64(mem, a);
        MarkSame(pte, access);
        if b == a {
          ReadBack(mem, a, Mark(pte, access));
        } else {
          Apart8(a, b);
          ReadApart(mem, a, Mark(pte, access), b);
        }
      }
    }
  }

  lemma Reflexive(w: Word)
    ensures SameEntry(w, w)
  {}

  lemma Apart8(a: nat, b: nat)
    requires a % 8 == 0 && b % 8 == 0 && a != b
    ensures a + 8 <= b || b + 8 <= a
  {}

  /** Slots of a page-aligned table are aligned words. */
  lemma SlotAligned(table: nat, i: nat)
    requires table % 4096 == 0
    ensures (table + i * 8) % 8 == 0
  {
    assert table + i * 8 == 8 * (table / 4096 * 512 + i);
  }

  lemma SameEntryAt(mem: Ram8, mem': Ram8, x: nat)
    requires SameTables(mem, mem') && x % 8 == 0 && x + 8 <= RAM_SIZE
    ensures var w, w' := Read64(mem, x), Read64(mem', x); SameEntry(w, w') && PteP(w) == PteP(w') && Ppn(w) == Ppn(w')
  {
    hide Read64;
    assert SameEntry(Read64(mem, x), Read64(mem', x));
  }

  /** Same tables, same walk: same leaf address, same flags and page number. */
  lemma {:induction false} WalkSameTables(mem: Ram8, mem': Ram8, table: nat, va: nat, level: nat)
    requires level < 4 && table % 4096 == 0 && SameTables(mem, mem')
    ensures var l, l' := Walk(mem, table, va, level), Walk(mem', table, va, level);
      && (l.NoPage? <==> l'.NoPage?)
      && (l.Leaf? ==> l'.addr == l.addr && SameEntry(l.pte, l'.pte) && l.addr % 8 == 0 && l.addr + 8 <= RAM_SIZE
                      && l.pte == Read64(mem, l.addr))
    decreases level
  {
    hide Ix, Read64, SameTables, SameEntry, PteP, Ppn;
    var a := table + Ix(va, level) * 8;
    if a + 8 <= RAM_SIZE {
      SlotAligned(table, Ix(va, level));
      SameEntryAt(mem, mem', a);
      if level > 0 && PteP(Read64(mem, a)) {
        WalkSameTables(mem, mem', Ppn(Read64(mem, a)) * 4096, va, level - 1);
      }
    }
  }

  lemma CoherentSameTables(mem: Ram8, mem': Ram8, root: nat, tlb: Tlb)
    requires root % 4096 == 0 && SameTables(mem, mem') && TlbCoherent(mem, root, tlb)
    ensures TlbCoherent(mem', root, tlb)
  {
    hide SameTables, Walk;
    forall k | 0 <= k < TLB_SIZE && tlb[k].valid
      ensures EntryOk(mem', root, tlb[k])
    {
      WalkSameTables(mem, mem', root, tlb[k].vpn * 4096, 3);
    }
  }

  // ---- translate agrees with a pure walk ------------------------------------------------

  /** The two machines, equal but for the TLB. */
  ghost predicate Twins(m: Machine, w: Machine) { m == w.(tlb := m.tlb) }

  /** Walking is the same with and without a TLB, and the fill keeps it coherent. */
  lemma MissAgrees(m: Machine, w: Machine, va: nat, access: Access)
    requires Coherent(m) && Twins(m, w) && va < 0x1_0000_0000_0000
    ensures var t, u := Miss(m, va, access, true), Miss(w, va, access, false);
      t.reply == u.reply && Twins(t.m, u.m) && Coherent(t.m)
  {
    hide Walk, Marked, Denial, Ppn, PteW, PteU, PteNx, TlbCoherent, EntryFor, TlbIx;
    RootAligned(m);
    SameTablesRefl(m.mem);
    WalkSameTables(m.mem, m.mem, Root(m), va, 3);
    var l := WalkOf(m, va);
    if l.Leaf? {
      MarkedSameTables(m.mem, l.addr, access);
      var mem' := Marked(m.mem, l.addr, access);
      CoherentSameTables(m.mem, mem', Root(m), m.tlb);
      FillCoherent(m.mem, mem', Root(m), m.tlb, va, l.addr, l.pte);
    }
  }

  /** A hit under coherence replies, and marks, exactly as the walk of the twin. */
  lemma HitAgrees(m: Machine, w: Machine, va: nat, access: Access)
    requires Coherent(m) && Twins(m, w) && va < 0x1_0000_0000_0000
    requires m.tlb[TlbIx(va)].valid && m.tlb[TlbIx(va)].vpn == va / 4096
    ensures var t, u := Hit(m, va, access), Miss(w, va, access, false);
      t.reply == u.reply && Twins(t.m, u.m) && Coherent(t.m)
  {
    hide Walk, Marked, Denial, Ppn, PteW, PteU, PteNx, TlbIx, SameTables;
    var e := m.tlb[TlbIx(va)];
    assert EntryOk(m.mem, Root(m), e);
    WalkByPage(m.mem, Root(m), va, 3);
    RootAligned(m);
    SameTablesRefl(m.mem);
    WalkSameTables(m.mem, m.mem, Root(m), va, 3);
    MarkedSameTables(m.mem, e.pteAddr, access);
    CoherentSameTables(m.mem, Marked(m.mem, e.pteAddr, access), Root(m), m.tlb);
  }

  /** For every access kind, mode and address: a coherent TLB gives the reply and leaves the
      memory of a walk, changes nothing else, and stays coherent for all addresses. */
  lemma TranslateAgrees(m: Machine, w: Machine, va: nat, access: Access)
    requires Coherent(m) && Twins(m, w)
    ensures var t, u := Translate(m, va, access, true), Translate(w, va, access, false);
      t.reply == u.reply && Twins(t.m, u.m) && Coherent(t.m)
  {
    hide Hit, Miss, TlbCoherent;
    if m.csrs[CSR_PMODE] != 0 && va < 0x1_0000_0000_0000 {
      if m.tlb[TlbIx(va)].valid && m.tlb[TlbIx(va)].vpn == va / 4096 {
        HitAgrees(m, w, va, access);
      } else {
        MissAgrees(m, w, va, access);
      }
    }
  }

  lemma RootAligned(m: Machine)
    ensures Root(m) % 4096 == 0
  {}

  lemma SameTablesRefl(mem: Ram8)
    ensures SameTables(mem, mem)
  {}

  /** Caching the leaf a walk has just found keeps the TLB coherent. */
  lemma FillCoherent(mem: Ram8, mem': Ram8, root: nat, tlb: Tlb, va: nat, a: nat, pte: Word)
    requires va < 0x1_0000_0000_0000 && root % 4096 == 0 && SameTables(mem, mem')
    requires TlbCoherent(mem', root, tlb) && Walk(mem, root, va, 3) == Leaf(a, pte)
    ensures TlbCoherent(mem', root, tlb[TlbIx(va) := EntryFor(va, a, pte)])
  {
    hide Walk, SameTables;
    WalkByPage(mem, root, va, 3);
    WalkSameTables(mem, mem', root, va / 4096 * 4096, 3);
  }
}
