// What a page-table entry lets a program do, bit by bit: which addresses an
// access reaches, with which fault code it fails, and what it leaves in memory.

module Mik64Rights {
  import opened Bytes
  import opened Mik64Mmu
  import opened Mik64Tlb
  import opened IdentityMap
  import opened ProcessSpace
  import PageFault

  // ---- The walk, level by level ----------------------------------------------------------------

  function ByteAt(mem: Ram8, a: nat): nat
    requires a < RAM_SIZE
  {
    mem[a]
  }

  /** A 64-bit word is its eight bytes, the lowest first. */
  lemma WordBytes(mem: Ram8, a: nat)
    requires a + 8 <= RAM_SIZE
    ensures Read64(mem, a) == ByteAt(mem, a) + 0x100 * ByteAt(mem, a + 1) + 0x1_0000 * ByteAt(mem, a + 2)
      + 0x100_0000 * ByteAt(mem, a + 3) + 0x1_0000_0000 * ByteAt(mem, a + 4) + 0x100_0000_0000 * ByteAt(mem, a + 5)
      + 0x1_0000_0000_0000 * ByteAt(mem, a + 6) + 0x100_0000_0000_0000 * ByteAt(mem, a + 7)
  {
    var b := mem[a..a + 8];
    FourBytes(b);
    FourBytes(b[4..]);
    assert b[4..][4..] == [];
  }

  lemma FourBytes(b: seq<u8>)
    requires |b| >= 4
    ensures LeWord(b) == b[0] + 0x100 * b[1] + 0x1_0000 * b[2] + 0x100_0000 * b[3] + 0x1_0000_0000 * LeWord(b[4..])
  {
    assert b[1..][1..] == b[2..] && b[2..][1..] == b[3..] && b[3..][1..] == b[4..];
    assert LeWord(b) == b[0] + 256 * LeWord(b[1..]);
    assert LeWord(b[1..]) == b[1] + 256 * LeWord(b[2..]);
    assert LeWord(b[2..]) == b[2] + 256 * LeWord(b[3..]);
    assert LeWord(b[3..]) == b[3] + 256 * LeWord(b[4..]);
  }

  /** A present entry: bit 0. */
  predicate EntryAt(mem: Ram8, a: nat) { a + 8 <= RAM_SIZE && Read64(mem, a) % 2 == 1 }

  /** The page an entry names: bits 12 to 47. */
  function PageIn(w: Word): nat { w / 0x1000 % 0x10_0000_0000 * 0x1000 }

  /** From the root at PTBR, bits 39 to 47, 30 to 38, 21 to 29 and 12 to 20 of va select four present
      entries, each in the page the one before names; the last is at a. */
  predicate LeafAt(mem: Ram8, root: nat, va: nat, a: nat) {
    var a3 := root + va / 0x80_0000_0000 % 512 * 8;
    EntryAt(mem, a3)
    && var a2 := PageIn(Read64(mem, a3)) + va / 0x4000_0000 % 512 * 8;
    EntryAt(mem, a2)
    && var a1 := PageIn(Read64(mem, a2)) + va / 0x20_0000 % 512 * 8;
    EntryAt(mem, a1) && EntryAt(mem, a) && a == PageIn(Read64(mem, a1)) + va / 0x1000 % 512 * 8
  }

  /** One level of a walk. */
  lemma Down(mem: Ram8, table: nat, va: nat, level: nat, a: nat)
    requires 0 < level < 4 && a == table + Ix(va, level) * 8
    ensures Walk(mem, table, va, level) == if EntryAt(mem, a) then Walk(mem, PageIn(Read64(mem, a)), va, level - 1) else NoPage
  {
    hide Read64, Ix;
  }

  lemma Bottom(mem: Ram8, table: nat, va: nat, a: nat)
    requires a == table + Ix(va, 0) * 8
    ensures Walk(mem, table, va, 0) == if EntryAt(mem, a) then Leaf(a, Read64(mem, a)) else NoPage
  {
    hide Read64, Ix;
  }

  /** Where a walk ends. */
  lemma WalkMeans(mem: Ram8, root: nat, va: nat)
    ensures forall a: nat :: LeafAt(mem, root, va, a) <==> a + 8 <= RAM_SIZE && Walk(mem, root, va, 3) == Leaf(a, Read64(mem, a))
    ensures var l := Walk(mem, root, va, 3); l.Leaf? ==> LeafAt(mem, root, va, l.addr)
  {
    hide Read64, Walk, PageIn;
    var a3 := root + va / 0x80_0000_0000 % 512 * 8;
    Down(mem, root, va, 3, a3);
    if EntryAt(mem, a3) {
      var t2 := PageIn(Read64(mem, a3));
      var a2 := t2 + va / 0x4000_0000 % 512 * 8;
      Down(mem, t2, va, 2, a2);
      if EntryAt(mem, a2) {
        var t1 := PageIn(Read64(mem, a2));
        var a1 := t1 + va / 0x20_0000 % 512 * 8;
        Down(mem, t1, va, 1, a1);
        if EntryAt(mem, a1) {
          var t0 := PageIn(Read64(mem, a1));
          Bottom(mem, t0, va, t0 + va / 0x1000 % 512 * 8);
        }
      }
    }
  }

  // ---- The rights of an access --------------------------------------------------------------------

  /** What the leaf entry w lets an access to va do. */
  function Granted(w: Word, va: nat, user: bool, access: Access): Reply {
    if user && w / 4 % 2 == 0 then Fault(5)
    else if access == Store && w / 2 % 2 == 0 then Fault(2)
    else if access == Fetch && w / 0x8000_0000_0000_0000 == 1 then Fault(3)
    else Pa(PageIn(w) + va % 0x1000)
  }

  /** With paging on, with a coherent TLB or none: 4 for an address of more than 48 bits, 1 where no
      page is, and otherwise what the leaf's bits grant. */
  lemma Replies(m: Machine, va: nat, access: Access, cached: bool)
    requires m.csrs[1] != 0 && (cached ==> Coherent(m))
    ensures var r, root := Translate(m, va, access, cached).reply, m.csrs[0] / 0x1000 * 0x1000;
      && (va >= 0x1_0000_0000_0000 ==> r == Fault(4))
      && (va < 0x1_0000_0000_0000 ==>
            && ((forall a: nat :: !LeafAt(m.mem, root, va, a)) ==> r == Fault(1))
            && (forall a: nat | LeafAt(m.mem, root, va, a) :: r == Granted(Read64(m.mem, a), va, m.mode.user, access)))
  {
    hide Walk, LeafAt, Read64, Marked, TlbCoherent;
    WalkMeans(m.mem, Root(m), va);
    if cached {
      TranslateAgrees(m, m, va, access);
    }
  }

  /** U in user mode, W for a store, no NX for a fetch. */
  predicate Allows(w: Word, user: bool, access: Access) {
    (user ==> w / 4 % 2 == 1) && (access == Store ==> w / 2 % 2 == 1) && (access == Fetch ==> w / 0x8000_0000_0000_0000 == 0)
  }

  /** The access goes through exactly when the walk ends at a leaf whose bits allow it. */
  lemma GoesThrough(m: Machine, va: nat, access: Access, cached: bool)
    requires m.csrs[1] != 0 && (cached ==> Coherent(m)) && va < 0x1_0000_0000_0000
    ensures Translate(m, va, access, cached).reply.Pa? <==>
      exists a: nat :: LeafAt(m.mem, m.csrs[0] / 0x1000 * 0x1000, va, a) && Allows(Read64(m.mem, a), m.mode.user, access)
  {
    hide Walk, LeafAt, Read64, Translate, Coherent;
    Replies(m, va, access, cached);
    var root := m.csrs[0] / 0x1000 * 0x1000;
    WalkMeans(m.mem, root, va);
    if a: nat :| LeafAt(m.mem, root, va, a) {
      TopBit(Read64(m.mem, a));
    }
  }

  lemma TopBit(w: Word)
    ensures w / 0x8000_0000_0000_0000 == 0 || w / 0x8000_0000_0000_0000 == 1
  {}

  /** With paging off an address is its own physical address. */
  lemma PagingOff(m: Machine, va: nat, access: Access, cached: bool)
    requires m.csrs[1] == 0
    ensures Translate(m, va, access, cached) == Tr(Pa(va), m)
  {}

  // ---- Accessed and dirty ------------------------------------------------------------------------

  /** Bit 3 of the word at a, and bit 4 for a store, are set; every byte of the rest is as it was. */
  predicate MarkedAt(mem: Ram8, mem': Ram8, a: nat, access: Access)
    requires a + 8 <= RAM_SIZE
  {
    && Read64(mem', a) == Read64(mem, a) as int + (if Read64(mem, a) / 8 % 2 == 0 then 8 else 0)
                          + (if access == Store && Read64(mem, a) / 16 % 2 == 0 then 16 else 0)
    && forall b: nat | b < RAM_SIZE && !(a <= b < a + 8) :: mem'[b] == mem[b]
  }

  /** An access that goes through sets bit 3 of the leaf, and bit 4 for a store; one that does not
      writes nothing.  No other byte of memory, and nothing but the TLB besides, changes. */
  lemma Marks(m: Machine, va: nat, access: Access, cached: bool)
    requires m.csrs[1] != 0 && (cached ==> Coherent(m)) && va < 0x1_0000_0000_0000
    ensures var t := Translate(m, va, access, cached);
      && t.m == m.(mem := t.m.mem, tlb := t.m.tlb)
      && (t.reply.Fault? ==> t.m.mem == m.mem)
      && (t.reply.Pa? ==> forall a: nat | LeafAt(m.mem, m.csrs[0] / 0x1000 * 0x1000, va, a) ::
            a + 8 <= RAM_SIZE && MarkedAt(m.mem, t.m.mem, a, access))
  {
    hide Walk, LeafAt, Read64, Marked, TlbCoherent, Write64, Mark;
    WalkMeans(m.mem, Root(m), va);
    if cached {
      TranslateAgrees(m, m, va, access);
    }
    var t := Translate(m, va, access, false);
    if t.reply.Pa? {
      var a := WalkOf(m, va).addr;
      LeafFits(m.mem, Root(m), va, a);
      MarkedBytes(m.mem, a, access);
    }
  }

  lemma LeafFits(mem: Ram8, root: nat, va: nat, a: nat)
    requires LeafAt(mem, root, va, a)
    ensures a + 8 <= RAM_SIZE
  {
    hide Read64;
  }

  lemma MarkedBytes(mem: Ram8, a: nat, access: Access)
    requires a + 8 <= RAM_SIZE
    ensures MarkedAt(mem, Marked(mem, a, access), a, access)
  {
    var w := Read64(mem, a);
    Bit4Kept(w);
    ReadBack(mem, a, Mark(w, access));
    hide Read64;
  }

  /** Setting bit 3 leaves bit 4. */
  lemma Bit4Kept(w: nat)
    ensures w / 8 % 2 == 0 ==> (w + 8) / 16 == w / 16
  {
    var k := w / 8 / 2;
    if w / 8 % 2 == 0 {
      assert w == 16 * k + w % 8;
      Sixteenth(k, w % 8);
      Sixteenth(k, w % 8 + 8);
    }
  }

  lemma Sixteenth(k: nat, r: nat)
    requires r < 16
    ensures (16 * k + r) / 16 == k
  {}

  // ---- A process's space ------------------------------------------------------------------------------

  /** In the space the kernel builds for a process, user mode reaches nothing of the kernel half (every
      access there is denied as a user access), an address from 8 to 10 MiB as its entry of PT4 says,
      and nothing anywhere else. */
  lemma UserReach(m: Machine, t: Tables, va: nat, access: Access, cached: bool)
    requires PageFault.On(m, t, cached) && m.mode.user
    ensures var r, w := Translate(m, va, access, cached).reply, UserEntryOf(m.mem, t, va);
      r == if va < 0x80_0000 then Fault(5)
           else if va < 0xA0_0000 then if w % 2 == 0 then Fault(1) else Granted(w, va, true, access)
           else if va < 0x1_0000_0000_0000 then Fault(1) else Fault(4)
  {
    hide Walk, Read64, Marked, Space, Coherent, Root, Holds, SameEntry, Ppn, Translate;
    UserWalks(m.mem, t, va);
    WalkReply(m, t, va, access, cached);
  }

  /** va's entry of the process's PT4. */
  function UserEntryOf(mem: Ram8, t: Tables, va: nat): Word {
    var a := t.pt4 + va / 4096 % 512 * 8;
    if a + 8 <= RAM_SIZE then Read64(mem, a) else 0
  }

  lemma WalkReply(m: Machine, t: Tables, va: nat, access: Access, cached: bool)
    requires PageFault.On(m, t, cached)
    ensures Translate(m, va, access, cached).reply
         == if va >= 0x1_0000_0000_0000 then Fault(4)
            else if Walk(m.mem, t.pml4, va, 3).NoPage? then Fault(1)
            else Granted(Walk(m.mem, t.pml4, va, 3).pte, va, m.mode.user, access)
  {
    hide Walk, Read64, Marked, Space, TlbCoherent, Holds;
    if cached {
      TranslateAgrees(m, m, va, access);
    }
  }

  /** Where walks of a process's space end. */
  lemma UserWalks(mem: Ram8, t: Tables, va: nat)
    requires Space(mem, t) && Holds(mem, t.pd + 32, t.pt4 + 3)
    ensures va < 0x80_0000 ==> Walk(mem, t.pml4, va, 3).Leaf? && Walk(mem, t.pml4, va, 3).pte / 4 % 2 == 0
    ensures 0x80_0000 <= va < 0xA0_0000 ==>
      var w := UserEntryOf(mem, t, va);
      if w % 2 == 0 then Walk(mem, t.pml4, va, 3) == NoPage else Walk(mem, t.pml4, va, 3).Leaf? && Walk(mem, t.pml4, va, 3).pte == w
    ensures 0xA0_0000 <= va < 0x1_0000_0000_0000 ==> Walk(mem, t.pml4, va, 3) == NoPage
  {
    hide Walk, Read64, Space, Holds, UserEntryOf;
    if va < KERNEL_TOP {
      KernelLeaf(mem, t, va);
    } else if va < USER_TOP {
      RegionLeaf(mem, t, va);
    } else if va < 0x1_0000_0000_0000 {
      BeyondWalk(mem, t, va);
    }
  }

  lemma KernelLeaf(mem: Ram8, t: Tables, va: nat)
    requires Space(mem, t) && va < KERNEL_TOP
    ensures Walk(mem, t.pml4, va, 3).Leaf? && Walk(mem, t.pml4, va, 3).pte / 4 % 2 == 0
  {
    hide Walk, Read64, KernelPd, Closed, SameEntry, Ppn, TablesOk;
    KernelWalk(mem, t.pml4, t.pdpt, t.pd, t.pt, va);
    TableEntry(Walk(mem, t.pml4, va, 3).pte, 4096 * (va / 4096));
  }

  lemma RegionLeaf(mem: Ram8, t: Tables, va: nat)
    requires Space(mem, t) && Holds(mem, t.pd + 32, t.pt4 + 3) && USER_VA <= va < USER_TOP
    ensures var w := UserEntryOf(mem, t, va);
      if w % 2 == 0 then Walk(mem, t.pml4, va, 3) == NoPage else Walk(mem, t.pml4, va, 3).Leaf? && Walk(mem, t.pml4, va, 3).pte == w
  {
    hide Walk, Read64, KernelChain, Closed, SameEntry, Holds, TablesOk;
    PageFault.RegionWalk(mem, t, va);
  }

  lemma BeyondWalk(mem: Ram8, t: Tables, va: nat)
    requires Space(mem, t) && USER_TOP <= va < 0x1_0000_0000_0000
    ensures Walk(mem, t.pml4, va, 3) == NoPage
  {
    hide Read64, KernelPd, Only, SameEntry, Ppn;
    BeyondIx(va);
    OnlyAt(mem, t.pml4, 1, Ix(va, 3));
    OnlyAt(mem, t.pdpt, 1, Ix(va, 2));
    OnlyAt(mem, t.pd, 5, Ix(va, 1));
    TableEntry(Read64(mem, t.pml4), t.pdpt);
    TableEntry(Read64(mem, t.pdpt), t.pd);
    if Ix(va, 3) == 0 {
      assert Walk(mem, t.pml4, va, 3) == Walk(mem, t.pdpt, va, 2);
      if Ix(va, 2) == 0 {
        assert Walk(mem, t.pdpt, va, 2) == Walk(mem, t.pd, va, 1);
      }
    }
  }

  lemma BeyondIx(va: nat)
    requires USER_TOP <= va < 0x1_0000_0000_0000
    ensures Ix(va, 3) >= 1 || Ix(va, 2) >= 1 || Ix(va, 1) >= 5
  {}
}
