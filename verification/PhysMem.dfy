// The frame allocator and the page-table editor of the x86-64 kernel.  The
// methods work in place on RAM; their contracts say what happens to every
// frame and to every leaf of every address space.

module PhysMemory {
  import opened Options
  import opened PageTables

  const USER_CODE_VA := 0x4000_0000
  const USER_REGION_END := 0x8000_0000

  /** Virtual addresses the private page directory covers. */
  predicate InUserRegion(va: Word) { USER_CODE_VA <= va < USER_REGION_END }

  /** The nine index bits of `va` at a level: 3 is the PML4, 0 the page table. */
  function Index(va: Word, level: nat): nat
    requires level < 4
    ensures Index(va, level) < WORDS_PER_PAGE
  {
    match level
    case 3 => va / 0x80_0000_0000 % WORDS_PER_PAGE
    case 2 => va / 0x4000_0000 % WORDS_PER_PAGE
    case 1 => va / 0x20_0000 % WORDS_PER_PAGE
    case 0 => va / 0x1000 % WORDS_PER_PAGE
  }

  /** Every user-region walk goes through PML4 entry 0 and PDPT entry 1. */
  lemma UserIndex(va: Word)
    requires InUserRegion(va)
    ensures Index(va, 3) == 0 && Index(va, 2) == 1
  {}

  /** Or-ing P|W|U into a page-aligned address. */
  lemma PageFlags(pa: Word)
    requires pa % PAGE_SIZE == 0 && FrameOf(pa) < IDENTITY_FRAMES
    ensures pa + 7 == Entry(FrameOf(pa), 7)
    ensures FrameOf(pa + 7) == FrameOf(pa) && Present(pa + 7) && Writable(pa + 7) && User(pa + 7)
  {
    EntryBits(FrameOf(pa));
  }

  /** `flags | PTE_W`. */
  function OrW(flags: nat): nat { if flags / 2 % 2 == 1 then flags else flags + PTE_W }

  /** Frame bits do not show in the three low bits. */
  lemma LowBits(k: nat, fl: nat)
    requires fl < 4096
    ensures (4096 * k + fl) / 4096 == k && (4096 * k + fl) % 4096 == fl
    ensures (4096 * k + fl) % 2 == fl % 2
    ensures (4096 * k + fl) / 2 % 2 == fl / 2 % 2
    ensures (4096 * k + fl) / 4 % 2 == fl / 4 % 2
  {
    var b, q := fl % 8, fl / 8;
    assert 4096 * k + fl == 8 * (512 * k + q) + b && fl == 8 * q + b;
    LowThree(512 * k + q, b);
    LowThree(q, b);
  }

  /** Setting W touches no other low bit. */
  lemma OrWBits(fl: nat)
    requires fl < 4096
    ensures OrW(fl) < 4096 && OrW(fl) % 2 == fl % 2 && OrW(fl) / 2 % 2 == 1 && OrW(fl) / 4 == fl / 4
  {
    var q, b := fl / 4, fl % 4;
    assert fl == 4 * q + b && q < 1024;
    assert OrW(fl) == 4 * q + b % 2 + 2;
    assert OrW(fl) / 2 == 2 * q + 1;
  }

  /** The leaf a copy-on-write fault writes: the new frame, the old flags, W set. */
  lemma CopyBits(g: nat, w: Word)
    requires g < IDENTITY_FRAMES
    ensures var x := g * PAGE_SIZE + OrW(w % PAGE_SIZE);
      && 0 <= x < 0x1_0000_0000_0000_0000 && FrameOf(x) == g && Writable(x)
      && Present(x) == Present(w) && User(x) == User(w)
  {
    hide OrW;
    OrWBits(w % PAGE_SIZE);
    LowBits(w / PAGE_SIZE, w % PAGE_SIZE);
    LowBits(g, OrW(w % PAGE_SIZE));
  }

  lemma LeafIs(mem: Ram, mem': Ram, spaces: set<nat>, r: nat, i: nat, j: nat, w: Word)
    requires LeafSet(mem, mem', spaces, r, i, j, w)
    ensures Leaf(mem', r, i, j) == w
  {}

  /** Where a page-table entry lives: word `idx` of frame `table`. */
  datatype Slot = Slot(table: nat, idx: nat)

  /** Frames map_4k takes for missing tables above leaf (i, _) of r. */
  function MissingTables(mem: Ram, r: nat, i: nat): nat {
    if !Present(PdSlot(mem, r)) then 2 else if !Present(Pde(mem, r, i)) then 1 else 0
  }

  /** A new empty directory leaves one table missing everywhere below it. */
  lemma MissingAfterPd(mem: Ram, mem': Ram, r: nat)
    requires !Present(PdSlot(mem, r)) && Present(PdSlot(mem', r))
    requires forall k | 0 <= k < WORDS_PER_PAGE :: Pde(mem', r, k) == 0
    ensures forall k | 0 <= k < WORDS_PER_PAGE :: MissingTables(mem, r, k) == 2 && MissingTables(mem', r, k) == 1
  {}

  /** A new page table completes the chain to its two megabytes. */
  lemma MissingAfterPt(mem: Ram, mem': Ram, r: nat, k: nat)
    requires Present(PdSlot(mem, r)) && !Present(Pde(mem, r, k))
    requires PdSlot(mem', r) == PdSlot(mem, r) && Present(Pde(mem', r, k))
    ensures MissingTables(mem, r, k) == 1 && MissingTables(mem', r, k) == 0
  {}

  /** Data frames other than `f` keep contents and use. */
  ghost predicate DataKeptBut(mem: Ram, own: seq<Role>, mem': Ram, own': seq<Role>, f: nat) {
    && |mem'| == |mem| == |own| == |own'|
    && forall g | 0 <= g < |own| && g != f && IsData(own[g]) :: own'[g] == own[g] && mem'[g] == mem[g]
  }

  /** A copy into a free frame, then one leaf written: only that leaf changed, and no data frame. */
  lemma CopyKept(mem: Ram, led: Ledger, mem1: Ram, mem2: Ram, led2: Ledger, r: nat, i: nat, j: nat, w: Word, g: nat, f: nat)
    requires g < |mem| == |led.own| && led.own[g].Free? && f < |mem| && mem1 == mem[g := mem[f]]
    requires LeavesKept(mem, mem1, led.spaces) && LeafSet(mem1, mem2, led.spaces, r, i, j, w)
    requires DataKeptBut(mem1, led.own[g := Loose], mem2, led2.own, g)
    ensures LeafSet(mem, mem2, led.spaces, r, i, j, w) && DataKept(mem, led.own, mem2, led2.own)
  {
    hide Leaf;
    forall k | 0 <= k < |led.own| && IsData(led.own[k]) ensures led2.own[k] == led.own[k] && mem2[k] == mem[k] {
      assert k != g && IsData(led.own[g := Loose][k]);
    }
  }

  // ---- The E820 map -----------------------------------------------------------

  datatype E820Entry = E820Entry(base: nat, len: nat, typ: nat) {
    predicate Usable() { typ == 1 && len > 0 }
  }

  /** Frame g lies wholly inside usable entry e, above 1 MiB and outside the kernel image. */
  predicate Seeds(e: E820Entry, kend: nat, g: nat) {
    && e.Usable()
    && e.base <= g * PAGE_SIZE && (g + 1) * PAGE_SIZE <= e.base + e.len
    && g * PAGE_SIZE >= 0x10_0000 && !(0x40_0000 <= g * PAGE_SIZE < kend)
  }

  /** Some entry among the first n seeds frame g. */
  predicate Seeded(entries: seq<E820Entry>, kend: nat, n: nat, g: nat)
    requires n <= |entries|
  {
    exists k | 0 <= k < n :: Seeds(entries[k], kend, g)
  }

  /** Usable entries lie under RAM and do not overlap. */
  ghost predicate E820Ok(entries: seq<E820Entry>, frames: nat) {
    && (forall k | 0 <= k < |entries| && entries[k].Usable() :: entries[k].base + entries[k].len <= frames * PAGE_SIZE)
    && forall k, l | 0 <= k < l < |entries| && entries[k].Usable() && entries[l].Usable() ::
         || entries[k].base + entries[k].len <= entries[l].base
         || entries[l].base + entries[l].len <= entries[k].base
  }

  /** The free list holds exactly the frames seeded so far, and nothing else has a use. */
  ghost predicate SeedState(led: Ledger, entries: seq<E820Entry>, kend: nat, n: nat, f: nat)
    requires n <= |entries|
  {
    && led.spaces == {}
    && (forall g: nat :: g in led.stack <==>
          Seeded(entries, kend, n, g) || (n < |entries| && Seeds(entries[n], kend, g) && g * PAGE_SIZE < f))
    && forall g | 0 <= g < |led.own| && g !in led.stack :: led.own[g] == Kernel
  }

  /** With no spaces yet, a boot-time frame may be given up to the allocator. */
  lemma ReleaseKeeps(mem: Ram, head: Word, kpd: nat, led: Ledger, f: nat)
    requires MemOk(mem, head, kpd, led) && led.spaces == {}
    requires f < |led.own| && led.own[f] == Kernel && f != kpd
    ensures MemOk(mem, head, kpd, led.(own := led.own[f := Loose]))
  {
    PageTables.FreeFrame(mem, led.own, led.stack, mem, led.own[f := Loose], head);
  }

  /** Disjoint entries never seed one frame twice. */
  lemma NotSeededTwice(entries: seq<E820Entry>, kend: nat, n: nat, g: nat, frames: nat)
    requires n < |entries| && E820Ok(entries, frames) && Seeds(entries[n], kend, g)
    ensures !Seeded(entries, kend, n, g) && g < frames
  {
    assert entries[n].Usable();
    forall k | 0 <= k < n
      ensures !Seeds(entries[k], kend, g)
    {
      var usable := entries[k].Usable();
    }
  }

  lemma SeedAdded(led: Ledger, led': Ledger, entries: seq<E820Entry>, kend: nat, n: nat, g: nat)
    requires n < |entries| && SeedState(led, entries, kend, n, g * PAGE_SIZE)
    requires Seeds(entries[n], kend, g) && g < |led.own|
    requires led' == led.(own := led.own[g := Loose][g := Free(|led.stack|)], stack := led.stack + [g])
    ensures SeedState(led', entries, kend, n, g * PAGE_SIZE + PAGE_SIZE)
  {
    forall h: nat
      ensures h in led'.stack <==> h in led.stack || h == g
    {}
  }

  lemma SeedSkip(led: Ledger, entries: seq<E820Entry>, kend: nat, n: nat, f: nat)
    requires n < |entries| && SeedState(led, entries, kend, n, f) && f % PAGE_SIZE == 0
    requires f < 0x10_0000 || 0x40_0000 <= f < kend
    ensures SeedState(led, entries, kend, n, f + PAGE_SIZE)
  {
    assert f / PAGE_SIZE * PAGE_SIZE == f;
    assert !Seeds(entries[n], kend, f / PAGE_SIZE);
  }

  lemma SeedNothing(led: Ledger, entries: seq<E820Entry>, kend: nat, n: nat, f: nat)
    requires n < |entries| && SeedState(led, entries, kend, n, 0)
    requires f == (entries[n].base + 0xFFF) / PAGE_SIZE * PAGE_SIZE
    ensures SeedState(led, entries, kend, n, f)
  {
    forall g: nat | g * PAGE_SIZE < f
      ensures !Seeds(entries[n], kend, g)
    {
      assert g < (entries[n].base + 0xFFF) / PAGE_SIZE;
    }
  }

  lemma SeedEntryDone(led: Ledger, entries: seq<E820Entry>, kend: nat, n: nat, f: nat)
    requires n < |entries| && SeedState(led, entries, kend, n, f)
    requires !entries[n].Usable() || (f % PAGE_SIZE == 0 && f + PAGE_SIZE > entries[n].base + entries[n].len)
    ensures SeedState(led, entries, kend, n + 1, 0)
  {
    forall g: nat
      ensures Seeded(entries, kend, n + 1, g) <==> Seeded(entries, kend, n, g) || Seeds(entries[n], kend, g)
      ensures Seeds(entries[n], kend, g) ==> g * PAGE_SIZE < f
    {
      if Seeds(entries[n], kend, g) {
        assert f / PAGE_SIZE * PAGE_SIZE == f;
      }
    }
  }

  // ---- What fork does to the leaves -----------------------------------------

  /** A leaf after fork, in the parent and in the child. */
  function ParentLeaf(w: Word): Word { if Present(w) then ClearW(w) else w }
  function ChildLeaf(w: Word): Word { if Present(w) then ClearW(w) else 0 }

  /** Clone order: whole tables below n, then the first m leaves of table n. */
  predicate Done(n: nat, m: nat, i: nat, j: nat) { i < n || (i == n && j < m) }

  /** Leaf (i, j) of parent p and child c when the copy has, or has not, passed it. */
  ghost predicate LeafCloned(mem0: Ram, mem: Ram, p: nat, c: nat, i: nat, j: nat, done: bool) {
    && Leaf(mem, p, i, j) == (if done then ParentLeaf(Leaf(mem0, p, i, j)) else Leaf(mem0, p, i, j))
    && Leaf(mem, c, i, j) == (if done then ChildLeaf(Leaf(mem0, p, i, j)) else 0)
  }

  ghost predicate ClonedUpTo(mem0: Ram, mem: Ram, p: nat, c: nat, n: nat, m: nat) {
    forall i, j | 0 <= i < WORDS_PER_PAGE && 0 <= j < WORDS_PER_PAGE ::
      LeafCloned(mem0, mem, p, c, i, j, Done(n, m, i, j))
  }

  /** Data frames keep their contents; private pages of p may have become shared. */
  ghost predicate DataShared(mem: Ram, own: seq<Role>, mem': Ram, own': seq<Role>, p: nat) {
    && |mem'| == |mem| == |own| == |own'|
    && forall f | 0 <= f < |own| && IsData(own[f]) ::
         && mem'[f] == mem[f]
         && (own'[f] == own[f] || (own[f].Private? && own[f].root == p && own'[f] == Shared))
  }

  lemma DataSharedRefl(mem0: Ram, own0: seq<Role>, mem: Ram, own: seq<Role>, p: nat)
    requires DataShared(mem0, own0, mem, own, p)
    ensures DataShared(mem, own, mem, own, p)
  {}

  lemma DataSharedTwice(mem0: Ram, own0: seq<Role>, mem1: Ram, own1: seq<Role>, mem2: Ram, own2: seq<Role>, p: nat)
    requires DataShared(mem0, own0, mem1, own1, p) && DataShared(mem1, own1, mem2, own2, p)
    ensures DataShared(mem0, own0, mem2, own2, p)
  {}

  /** Everything clone_user_table keeps while the child c is under construction. */
  ghost predicate CloneProgress(mem0: Ram, led0: Ledger, mem: Ram, led: Ledger, p: nat, c: nat, n: nat, m: nat) {
    && led.spaces == led0.spaces + {c}
    && DataShared(mem0, led0.own, mem, led.own, p)
    && ClonedUpTo(mem0, mem, p, c, n, m)
    && TablesKept(mem0, mem, p)
    && LeavesKept(mem0, mem, led0.spaces - {p})
  }

  /** A fresh empty child starts the copy. */
  lemma CloneStart(mem0: Ram, led0: Ledger, mem: Ram, led: Ledger, p: nat, c: nat)
    requires p in led0.spaces && led.spaces == led0.spaces + {c}
    requires DataKept(mem0, led0.own, mem, led.own) && LeavesKept(mem0, mem, led0.spaces) && TablesKept(mem0, mem, p)
    requires forall i | 0 <= i < WORDS_PER_PAGE :: Pde(mem, c, i) == 0
    ensures CloneProgress(mem0, led0, mem, led, p, c, 0, 0)
  {
    hide PdSlot, Pde, PdptFrame, At, ClearW;
    forall i, j | 0 <= i < WORDS_PER_PAGE && 0 <= j < WORDS_PER_PAGE
      ensures LeafCloned(mem0, mem, p, c, i, j, Done(0, 0, i, j))
    {
      assert Leaf(mem, p, i, j) == Leaf(mem0, p, i, j) && Pde(mem, c, i) == 0;
    }
  }

  /** Steps that touch no leaf and no data frame do not disturb the copy. */
  lemma CloneUndisturbed(mem0: Ram, led0: Ledger, mem: Ram, led: Ledger, mem': Ram, led': Ledger, p: nat, c: nat, n: nat)
    requires CloneProgress(mem0, led0, mem, led, p, c, n, 0) && p in led0.spaces && led'.spaces == led.spaces
    requires LeavesKept(mem, mem', led.spaces) && DataKept(mem, led.own, mem', led'.own) && TablesKept(mem, mem', p)
    ensures CloneProgress(mem0, led0, mem', led', p, c, n, 0)
  {
    hide Leaf, PdSlot, Pde, PdptFrame, Present, ClearW;
    DataSharedTwice(mem0, led0.own, mem, led.own, mem', led'.own, p);
    forall i, j | 0 <= i < WORDS_PER_PAGE && 0 <= j < WORDS_PER_PAGE
      ensures LeafCloned(mem0, mem', p, c, i, j, Done(n, 0, i, j))
    {
      assert LeafCloned(mem0, mem, p, c, i, j, Done(n, 0, i, j));
      assert Leaf(mem', p, i, j) == Leaf(mem, p, i, j) && Leaf(mem', c, i, j) == Leaf(mem, c, i, j);
    }
  }

  /** Reading the directory through its frame. */
  lemma PdeByDirectory(mem: Ram, r: nat, i: nat)
    requires Present(PdSlot(mem, r))
    ensures At(mem, FrameOf(PdSlot(mem, r)), i) == Pde(mem, r, i)
  {}

  lemma {:induction false} PresentPdesGrow(mem: Ram, r: nat, a: nat, b: nat)
    requires a <= b
    ensures PresentPdes(mem, r, a) <= PresentPdes(mem, r, b)
  {
    if a < b {
      PresentPdesGrow(mem, r, a, b - 1);
    }
  }

  /** Passing leaf (n, m): either nothing is mapped there, or it has just been shared. */
  lemma CloneStep(mem0: Ram, led0: Ledger, mem: Ram, led: Ledger, mem': Ram, led': Ledger, p: nat, c: nat, n: nat, m: nat)
    requires n < WORDS_PER_PAGE && m < WORDS_PER_PAGE && p in led0.spaces && c !in led0.spaces
    requires CloneProgress(mem0, led0, mem, led, p, c, n, m)
    requires led'.spaces == led.spaces && DataShared(mem, led.own, mem', led'.own, p) && TablesKept(mem, mem', p)
    requires if Present(Leaf(mem, p, n, m)) then LeafCloned(mem, mem', p, c, n, m, true) else mem' == mem
    requires forall s, a, b | s in led.spaces && 0 <= a < WORDS_PER_PAGE && 0 <= b < WORDS_PER_PAGE
               && (a, b) != (n, m) :: Leaf(mem', s, a, b) == Leaf(mem, s, a, b)
    requires forall s | s in led.spaces && s != p && s != c :: Leaf(mem', s, n, m) == Leaf(mem, s, n, m)
    ensures CloneProgress(mem0, led0, mem', led', p, c, n, m + 1)
  {
    hide Leaf, PdSlot, Pde, PdptFrame, Present, ClearW;
    DataSharedTwice(mem0, led0.own, mem, led.own, mem', led'.own, p);
    assert LeafCloned(mem0, mem, p, c, n, m, Done(n, m, n, m));
    var m' := m + 1;
    forall i, j | 0 <= i < WORDS_PER_PAGE && 0 <= j < WORDS_PER_PAGE
      ensures LeafCloned(mem0, mem', p, c, i, j, Done(n, m', i, j))
    {
      assert LeafCloned(mem0, mem, p, c, i, j, Done(n, m, i, j));
    }
  }

  /** A finished table, or a missing one, moves the copy to the next table. */
  lemma CloneNextTable(mem0: Ram, led0: Ledger, mem: Ram, led: Ledger, p: nat, c: nat, n: nat, m: nat)
    requires n < WORDS_PER_PAGE && CloneProgress(mem0, led0, mem, led, p, c, n, m)
    requires m == WORDS_PER_PAGE || (m == 0 && !Present(Pde(mem0, p, n)))
    ensures CloneProgress(mem0, led0, mem, led, p, c, n + 1, 0)
  {
    hide PdSlot, Pde, PdptFrame, ClearW, At, FrameOf;
    var n' := n + 1;
    forall i, j | 0 <= i < WORDS_PER_PAGE && 0 <= j < WORDS_PER_PAGE
      ensures LeafCloned(mem0, mem, p, c, i, j, Done(n', 0, i, j))
    {
      assert LeafCloned(mem0, mem, p, c, i, j, Done(n, m, i, j));
    }
  }

  /** Present entries among the first n of the private page directory. */
  function PresentPdes(mem: Ram, r: nat, n: nat): nat {
    if n == 0 then 0 else PresentPdes(mem, r, n - 1) + if Present(Pde(mem, r, n - 1)) then 1 else 0
  }

  class PhysMem {
    var mem: Ram
    var freeHead: Word
    const kpd: nat
    ghost var led: Ledger

    ghost predicate Valid()
      reads this
    {
      MemOk(mem, freeHead, kpd, led)
    }

    /** Boot: nothing free, no address space, every frame still the kernel's. */
    constructor (ram: Ram, kernelPd: nat)
      requires kernelPd < |ram| <= IDENTITY_FRAMES
      ensures Valid() && mem == ram && freeHead == 0 && kpd == kernelPd
      ensures led == Ledger(seq(|ram|, _ => Kernel), [], {})
    {
      mem := ram;
      freeHead := 0;
      kpd := kernelPd;
      led := Ledger(seq(|ram|, _ => Kernel), [], {});
    }

    /** init: seed the free list from the memory map; returns the usable frame count. */
    method Init(entries: seq<E820Entry>, kend: nat) returns (frames: nat)
      requires Valid() && led.spaces == {} && led.stack == [] && forall g | 0 <= g < |led.own| :: led.own[g] == Kernel
      requires E820Ok(entries, |mem|) && 0x40_0000 <= kpd * PAGE_SIZE < kend
      modifies this
      ensures Valid() && led.spaces == {} && frames == |led.stack|
      ensures forall g: nat :: g in led.stack <==> Seeded(entries, kend, |entries|, g)
      ensures forall a, b | 0 <= a < b < |led.stack| :: led.stack[a] != led.stack[b]
      ensures forall g | 0 <= g < |led.own| && g !in led.stack :: led.own[g] == Kernel
    {
      frames := 0;
      for n := 0 to |entries|
        invariant Valid() && |mem| == old(|mem|) && frames == |led.stack|
        invariant SeedState(led, entries, kend, n, 0)
      {
        var e := entries[n];
        if e.Usable() {
          var f := (e.base + 0xFFF) / PAGE_SIZE * PAGE_SIZE;
          SeedNothing(led, entries, kend, n, f);
          while f + 0x1000 <= e.base + e.len
            invariant Valid() && |mem| == old(|mem|) && frames == |led.stack|
            invariant f % PAGE_SIZE == 0 && e.base <= f
            invariant SeedState(led, entries, kend, n, f)
            decreases e.base + e.len - f
          {
            var below1Mib := f < 0x10_0000;
            var inKernel := f >= 0x40_0000 && f < kend;
            if !below1Mib && !inKernel {
              SeedFrame(entries, kend, n, f);
              frames := frames + 1;
            } else {
              SeedSkip(led, entries, kend, n, f);
            }
            f := f + 0x1000;
          }
          SeedEntryDone(led, entries, kend, n, f);
        } else {
          SeedEntryDone(led, entries, kend, n, 0);
        }
      }
      forall a, b | 0 <= a < b < |led.stack|
        ensures led.stack[a] != led.stack[b]
      {
        assert FreeNodeOk(mem, led.own, led.stack, a) && FreeNodeOk(mem, led.own, led.stack, b);
      }
    }

    /** Free one boot frame during seeding. */
    method SeedFrame(ghost entries: seq<E820Entry>, ghost kend: nat, ghost n: nat, f: nat)
      requires Valid() && n < |entries| && SeedState(led, entries, kend, n, f)
      requires E820Ok(entries, |mem|) && 0x40_0000 <= kpd * PAGE_SIZE < kend
      requires f % PAGE_SIZE == 0 && Seeds(entries[n], kend, f / PAGE_SIZE)
      modifies this
      ensures Valid() && |mem| == old(|mem|) && |led.stack| == |old(led).stack| + 1
      ensures SeedState(led, entries, kend, n, f + 0x1000)
    {
      hide FreeListOk, SpaceOk;
      ghost var g := f / PAGE_SIZE;
      assert g * PAGE_SIZE == f;
      NotSeededTwice(entries, kend, n, g, |mem|);
      ReleaseKeeps(mem, freeHead, kpd, led, g);
      led := led.(own := led.own[g := Loose]);
      ghost var stack := led.stack;
      FreeFrame(f);
      SeedAdded(old(led), led, entries, kend, n, g);
    }

    /** free_frame: thread the frame onto the list through its first word. */
    method FreeFrame(pa: Word)
      requires Valid() && pa % PAGE_SIZE == 0 && 0 < pa && HasRole(led.own, FrameOf(pa), Loose)
      modifies this
      ensures Valid() && LeavesKept(old(mem), mem, led.spaces)
      ensures freeHead == pa && mem == Put(old(mem), FrameOf(pa), 0, old(freeHead))
      ensures led == old(led).(own := old(led).own[FrameOf(pa) := Free(|old(led).stack|)],
                               stack := old(led).stack + [FrameOf(pa)])
    {
      FreeKeeps(mem, freeHead, kpd, led, FrameOf(pa));
      mem := Put(mem, FrameOf(pa), 0, freeHead);
      freeHead := pa;
      led := led.(own := led.own[FrameOf(pa) := Free(|led.stack|)], stack := led.stack + [FrameOf(pa)]);
    }

    /** alloc_frame: pop the list; the frame's contents are whatever it held. */
    method AllocFrame() returns (pa: Option<Word>)
      requires Valid()
      modifies this
      ensures Valid() && mem == old(mem)
      ensures old(led).stack == [] ==> pa == None && led == old(led)
      ensures old(led).stack != [] ==>
                && var f := old(led).stack[|old(led).stack| - 1];
                && f < |old(led).own| && old(led).own[f].Free? && 0 < f < |mem|
                && pa == Some(f * PAGE_SIZE)
                && led == old(led).(own := old(led).own[f := Loose], stack := old(led).stack[..|old(led).stack| - 1])
    {
      var head := freeHead;
      if head == 0 {
        if led.stack != [] {
          AllocKeeps(mem, freeHead, kpd, led);
        }
        pa := None;
      } else {
        AllocKeeps(mem, freeHead, kpd, led);
        freeHead := At(mem, FrameOf(head), 0);
        var f := FrameOf(head);
        pa := Some(head);
        led := led.(own := led.own[f := Loose], stack := led.stack[..|led.stack| - 1]);
      }
    }

    /** kmain's check of the allocator: take two frames, give the first back, take one.  The last is
        the first again, and two frames are gone. */
    method ReuseCheck() returns (ok: bool, reused: bool)
      requires Valid()
      modifies this
      ensures Valid() && led.spaces == old(led).spaces
      ensures ok <==> |old(led).stack| >= 2
      ensures ok ==> reused && |led.stack| == |old(led).stack| - 2
    {
      hide FreeListOk, SpaceOk;
      reused := false;
      var a := AllocFrame();
      if a.None? { return false, reused; }
      var b := AllocFrame();
      if b.None? { return false, reused; }
      FreeFrame(a.value);
      var c := AllocFrame();
      ok := true;
      reused := c == a;
    }

    /** find_pte: walk to the leaf slot for `va` without allocating. */
    method FindPte(p4: Word, va: Word) returns (pte: Option<Slot>)
      requires Valid() && p4 % PAGE_SIZE == 0 && FrameOf(p4) in led.spaces && InUserRegion(va)
      ensures var r, i, j := FrameOf(p4), Index(va, 1), Index(va, 0);
        pte == if Present(Pde(mem, r, i)) then Some(Slot(FrameOf(Pde(mem, r, i)), j)) else None
    {
      hide SpaceOk, FreeListOk;
      ghost var r := FrameOf(p4);
      UpperLevels(mem, freeHead, kpd, led, r);
      var table := FrameOf(p4);
      for level := 4 downto 1
        invariant level == 4 ==> table == r
        invariant level == 3 ==> table == PdptFrame(mem, r)
        invariant level == 2 ==> Present(PdSlot(mem, r)) && table == FrameOf(PdSlot(mem, r))
        invariant level == 1 ==> Present(Pde(mem, r, Index(va, 1))) && table == FrameOf(Pde(mem, r, Index(va, 1)))
      {
        var e := At(mem, table, Index(va, level));
        if !Present(e) {
          return None;
        }
        table := FrameOf(e);
      }
      pte := Some(Slot(table, Index(va, 0)));
    }

    /** Fill a frame that is no table and not free (memcpy and memset through the identity map). */
    method WritePage(f: nat, page: Page)
      requires Valid() && f < |mem| && f < |led.own| && IsData(led.own[f])
      modifies this`mem
      ensures Valid() && mem == old(mem)[f := page]
      ensures LeavesKept(old(mem), mem, led.spaces) && forall r | r in led.spaces :: TablesKept(old(mem), mem, r)
    {
      WriteKeeps(mem, freeHead, kpd, led, f, page);
      mem := mem[f := page];
    }

    /** A zeroed frame of its own, as every table allocation takes it. */
    method AllocZeroed() returns (pa: Option<Word>)
      requires Valid()
      modifies this
      ensures pa.None? <==> old(led).stack == []
      ensures pa.Some? ==>
                && var f := FrameOf(pa.value);
                && pa.value == f * PAGE_SIZE && Valid()
                && HasRole(old(led).own, f, Free(|old(led).stack| - 1))
                && mem == old(mem)[f := ZeroPage()]
                && led == old(led).(own := old(led).own[f := Loose], stack := old(led).stack[..|old(led).stack| - 1])
                && LeavesKept(old(mem), mem, led.spaces)
                && (forall r | r in led.spaces :: TablesKept(old(mem), mem, r))
    {
      if led.stack != [] {
        assert FreeNodeOk(mem, led.own, led.stack, |led.stack| - 1);
      }
      pa := AllocFrame();
      if pa.Some? {
        WritePage(FrameOf(pa.value), ZeroPage());
      }
    }

    /** build_user_table: a fresh space that shares only the kernel PD. */
    method BuildUserTable() returns (p4: Option<Word>)
      requires Valid()
      modifies this
      ensures p4.None? <==> |old(led).stack| < 2
      ensures p4.Some? ==>
                && var r := FrameOf(p4.value);
                && p4.value == r * PAGE_SIZE && Valid()
                && r !in old(led).spaces && led.spaces == old(led).spaces + {r}
                && led.stack == old(led).stack[..|old(led).stack| - 2]
                && DataKept(old(mem), old(led).own, mem, led.own)
                && LeavesKept(old(mem), mem, old(led).spaces)
                && (forall s | s in old(led).spaces :: TablesKept(old(mem), mem, s))
                && !Present(PdSlot(mem, r))
    {
      hide SpaceOk, FreeListOk, Leaf;
      var up4 := AllocZeroed();
      if up4.None? { return None; }
      var updpt := AllocZeroed();
      if updpt.None? { return None; }
      ghost var r, q := FrameOf(up4.value), FrameOf(updpt.value);
      NewSpaceKeeps(mem, freeHead, kpd, led, r, q);
      mem := Put(mem, FrameOf(up4.value), 0, updpt.value + PTE_P + PTE_W + PTE_U);
      mem := Put(mem, FrameOf(updpt.value), 0, kpd * PAGE_SIZE + PTE_P + PTE_W);
      led := led.(own := led.own[r := Pml4(r)][q := Pdpt(r)], spaces := led.spaces + {r});
      p4 := up4;
    }

    /** One step of map_4k's descent: the table under entry `idx`, linked first if missing. */
    method Descend(ghost r: nat, level: nat, table: nat, idx: nat) returns (next: Option<nat>)
      requires Valid() && r in led.spaces && 1 <= level <= 3 && idx < WORDS_PER_PAGE
      requires level == 3 ==> table == r && idx == 0
      requires level == 2 ==> table == PdptFrame(mem, r) && idx == 1
      requires level == 1 ==> Present(PdSlot(mem, r)) && table == FrameOf(PdSlot(mem, r))
      modifies this
      ensures next.None? ==>
                && old(led).stack == []
                && forall k | 0 <= k < WORDS_PER_PAGE && (level == 1 ==> k == idx) :: MissingTables(old(mem), r, k) > 0
      ensures next.Some? ==>
                && Valid() && led.spaces == old(led).spaces
                && |old(led).stack| >= |led.stack| && led.stack == old(led).stack[..|led.stack|]
                && (forall k | 0 <= k < WORDS_PER_PAGE && (level == 1 ==> k == idx) ::
                      |old(led).stack| - |led.stack| == MissingTables(old(mem), r, k) - MissingTables(mem, r, k))
                && DataKept(old(mem), old(led).own, mem, led.own)
                && LeavesKept(old(mem), mem, led.spaces)
                && (level == 3 ==> next.value == PdptFrame(mem, r))
                && (level == 2 ==> Present(PdSlot(mem, r)) && next.value == FrameOf(PdSlot(mem, r)))
                && (level == 1 ==> MissingTables(mem, r, idx) == 0 && next.value == FrameOf(Pde(mem, r, idx)))
    {
      hide SpaceOk, FreeListOk, Leaf, KernelSlotOk, FrameOf, Writable, User;
      UpperLevels(mem, freeHead, kpd, led, r);
      var e := At(mem, table, idx);
      if !Present(e) {
        var got := AllocZeroed();
        if got.None? { return None; }
        ghost var f, mid := FrameOf(got.value), mem;
        EntryBits(f);
        e := got.value + PTE_P + PTE_W + PTE_U;
        if level == 2 {
          NewPdKeeps(mem, freeHead, kpd, led, r, f);
          MissingAfterPd(old(mem), Put(mem, table, idx, e), r);
        } else {
          NewPtKeeps(mem, freeHead, kpd, led, r, idx, f);
          MissingAfterPt(old(mem), Put(mem, table, idx, e), r, idx);
        }
        mem := Put(mem, table, idx, e);
        led := led.(own := led.own[f := if level == 2 then Pd(r) else Pt(r, idx)]);
        assert LeavesKept(old(mem), mem, led.spaces) by {
          assert LeavesKept(old(mem), mid, led.spaces) && LeavesKept(mid, mem, led.spaces);
        }
      }
      next := Some(FrameOf(e));
    }

    /** map_4k: link missing tables, then write the leaf.  False is the out-of-frames panic. */
    method Map4k(p4: Word, va: Word, pa: Word, flags: Word) returns (ok: bool)
      requires Valid() && p4 % PAGE_SIZE == 0 && FrameOf(p4) in led.spaces && InUserRegion(va)
      requires pa % PAGE_SIZE == 0 && HasRole(led.own, FrameOf(pa), Loose) && flags == PTE_P + PTE_W + PTE_U
      modifies this
      ensures ok <==> |old(led).stack| >= MissingTables(old(mem), FrameOf(p4), Index(va, 1))
      ensures ok ==>
                && var r, f := FrameOf(p4), FrameOf(pa);
                && Valid() && led.spaces == old(led).spaces
                && led.stack == old(led).stack[..|old(led).stack| - MissingTables(old(mem), r, Index(va, 1))]
                && DataKeptBut(old(mem), old(led).own, mem, led.own, f)
                && led.own[f] == Private(r, Index(va, 1), Index(va, 0)) && mem[f] == old(mem)[f]
                && LeafSet(old(mem), mem, led.spaces, r, Index(va, 1), Index(va, 0), pa + flags)
                && MissingTables(mem, r, Index(va, 1)) == 0
    {
      hide SpaceOk, FreeListOk, Leaf, PdSlot, Pde, PdptFrame, At, MissingTables;
      hide Index, FrameOf, Present, Writable, User;
      UserIndex(va);
      PageFlags(pa);
      ghost var r, i, j := FrameOf(p4), Index(va, 1), Index(va, 0);
      var table := FrameOf(p4);
      for level := 4 downto 1
        invariant Valid() && led.spaces == old(led).spaces
        invariant level == 4 ==> table == r
        invariant level == 3 ==> table == PdptFrame(mem, r)
        invariant level == 2 ==> Present(PdSlot(mem, r)) && table == FrameOf(PdSlot(mem, r))
        invariant level == 1 ==> MissingTables(mem, r, i) == 0 && table == FrameOf(Pde(mem, r, i))
        invariant |old(led).stack| >= |led.stack| && led.stack == old(led).stack[..|led.stack|]
        invariant |old(led).stack| - |led.stack| == MissingTables(old(mem), r, i) - MissingTables(mem, r, i)
        invariant DataKept(old(mem), old(led).own, mem, led.own)
        invariant LeavesKept(old(mem), mem, led.spaces)
      {
        var next := Descend(r, level, table, Index(va, level));
        if next.None? { return false; }
        table := next.value;
      }
      LinkLeaf(r, i, Slot(table, Index(va, 0)), pa + flags);
      ok := true;
    }

    /** The last store of map_4k and of a copy-on-write fault: name a loose frame, writably. */
    method LinkLeaf(ghost r: nat, ghost i: nat, pte: Slot, w: Word)
      requires Valid() && r in led.spaces && i < WORDS_PER_PAGE && pte.idx < WORDS_PER_PAGE
      requires MissingTables(mem, r, i) == 0 && pte.table == FrameOf(Pde(mem, r, i))
      requires Present(w) && Writable(w) && User(w) && HasRole(led.own, FrameOf(w), Loose)
      modifies this
      ensures Valid() && led == old(led).(own := old(led).own[FrameOf(w) := Private(r, i, pte.idx)])
      ensures LeafSet(old(mem), mem, led.spaces, r, i, pte.idx, w) && MissingTables(mem, r, i) == 0
      ensures DataKeptBut(old(mem), old(led).own, mem, led.own, FrameOf(w)) && mem[FrameOf(w)] == old(mem)[FrameOf(w)]
    {
      hide SpaceOk, FreeListOk, Leaf;
      ghost var own' := led.own[FrameOf(w) := Private(r, i, pte.idx)];
      LeafFacts(mem, freeHead, kpd, led, r, i, pte.idx);
      LeafWriteKeeps(mem, freeHead, kpd, led, own', r, i, pte.idx, w);
      mem := Put(mem, pte.table, pte.idx, w);
      led := led.(own := own');
    }

    /** A frame of its own with the bytes of frame f, as the copy-on-write arm takes it. */
    method AllocCopy(f: nat) returns (pa: Option<Word>)
      requires Valid() && f < |mem|
      modifies this
      ensures pa.None? <==> old(led).stack == []
      ensures pa.Some? ==>
                && var g := FrameOf(pa.value);
                && pa.value == g * PAGE_SIZE && Valid()
                && HasRole(old(led).own, g, Free(|old(led).stack| - 1))
                && mem == old(mem)[g := old(mem)[f]]
                && led == old(led).(own := old(led).own[g := Loose], stack := old(led).stack[..|old(led).stack| - 1])
                && LeavesKept(old(mem), mem, led.spaces)
                && (forall r | r in led.spaces :: TablesKept(old(mem), mem, r))
    {
      if led.stack != [] {
        assert FreeNodeOk(mem, led.own, led.stack, |led.stack| - 1);
      }
      pa := AllocFrame();
      if pa.Some? {
        WritePage(FrameOf(pa.value), mem[f]);
      }
    }

    /** What a copy-on-write fault does to memory: the leaf at pte gets a writable copy of its page. */
    method CopyLeaf(ghost r: nat, ghost i: nat, pte: Slot) returns (ok: bool, ghost w: Word)
      requires Valid() && r in led.spaces && i < WORDS_PER_PAGE && pte.idx < WORDS_PER_PAGE
      requires Present(Pde(mem, r, i)) && pte.table == FrameOf(Pde(mem, r, i))
      requires Present(Leaf(mem, r, i, pte.idx)) && User(Leaf(mem, r, i, pte.idx))
      modifies this
      ensures ok <==> old(led).stack != []
      ensures ok ==>
                && Valid() && led.spaces == old(led).spaces && |led.stack| == |old(led).stack| - 1
                && LeafSet(old(mem), mem, led.spaces, r, i, pte.idx, w) && DataKept(old(mem), old(led).own, mem, led.own)
                && Present(w) && Writable(w)
                && FrameOf(w) < |mem| == |old(mem)| && FrameOf(old(Leaf(mem, r, i, pte.idx))) < |mem|
                && mem[FrameOf(w)] == old(mem)[FrameOf(old(Leaf(mem, r, i, pte.idx)))]
    {
      hide MemOk, Present, Writable, User, OrW, PdSlot, Pde, PdptFrame;
      ghost var mem0, led0 := mem, led;
      w := 0;
      MemSize(mem, freeHead, kpd, led);
      LeafFacts(mem, freeHead, kpd, led, r, i, pte.idx);
      var was := At(mem, pte.table, pte.idx);
      assert was == Leaf(mem0, r, i, pte.idx);
      var fr := AllocCopy(FrameOf(was));
      if fr.None? { return false, w; }
      ghost var mem1 := mem;
      MemSize(mem, freeHead, kpd, led);
      assert TablesKept(mem0, mem1, r) && LeavesKept(mem0, mem1, led.spaces);
      CopyBits(FrameOf(fr.value), was);
      w := fr.value + OrW(was % PAGE_SIZE);
      LinkLeaf(r, i, pte, fr.value + OrW(was % PAGE_SIZE));
      hide Leaf, LeafSet, LeavesKept, DataKept, DataKeptBut;
      CopyKept(mem0, led0, mem1, mem, led, r, i, pte.idx, w, FrameOf(w), FrameOf(was));
      ok := true;
    }

    /** Share one page: clear W in the parent's leaf and put the same leaf in the child's table. */
    method ShareLeaf(ghost p: nat, ghost c: nat, ghost i: nat, pPt: nat, cPt: nat, j: nat)
      requires Valid() && p in led.spaces && c in led.spaces && p != c
      requires i < WORDS_PER_PAGE && j < WORDS_PER_PAGE
      requires Present(Pde(mem, p, i)) && pPt == FrameOf(Pde(mem, p, i))
      requires Present(Pde(mem, c, i)) && cPt == FrameOf(Pde(mem, c, i))
      requires Present(At(mem, pPt, j)) && !Present(At(mem, cPt, j))
      modifies this
      ensures Valid() && led.stack == old(led).stack && led.spaces == old(led).spaces
      ensures DataShared(old(mem), old(led).own, mem, led.own, p)
      ensures TablesKept(old(mem), mem, p) && TablesKept(old(mem), mem, c)
      ensures LeafCloned(old(mem), mem, p, c, i, j, true)
      ensures forall s, a, b | s in led.spaces && 0 <= a < WORDS_PER_PAGE && 0 <= b < WORDS_PER_PAGE
                && (a, b) != (i, j) :: Leaf(mem, s, a, b) == Leaf(old(mem), s, a, b)
      ensures forall s | s in led.spaces && s != p && s != c :: Leaf(mem, s, i, j) == Leaf(old(mem), s, i, j)
    {
      hide SpaceOk, FreeListOk, PdSlot, Pde, PdptFrame, FrameOf, Present, Writable, User, ClearW;
      var pte := At(mem, pPt, j);
      assert Leaf(mem, p, i, j) == pte && Leaf(mem, c, i, j) == At(mem, cPt, j);
      LeafFacts(mem, freeHead, kpd, led, p, i, j);
      LeafFacts(mem, freeHead, kpd, led, c, i, j);
      var sharedRo := ClearW(pte);
      ClearWBits(pte);
      ghost var own' := led.own[FrameOf(pte) := Shared];
      LeafWriteKeeps(mem, freeHead, kpd, led, own', p, i, j, sharedRo);
      mem := Put(mem, pPt, j, sharedRo);
      led := led.(own := own');
      LeafWriteKeeps(mem, freeHead, kpd, led, led.own, c, i, j, sharedRo);
      mem := Put(mem, cPt, j, sharedRo);
    }

    /** The inner loop of clone_user_table: share every page of table i. */
    method ClonePt(ghost mem0: Ram, ghost led0: Ledger, ghost p: nat, ghost c: nat, ghost i: nat, pPt: nat, cPt: nat)
      requires Valid() && p in led0.spaces && c !in led0.spaces && i < WORDS_PER_PAGE
      requires CloneProgress(mem0, led0, mem, led, p, c, i, 0)
      requires Present(Pde(mem, p, i)) && pPt == FrameOf(Pde(mem, p, i))
      requires Present(Pde(mem, c, i)) && cPt == FrameOf(Pde(mem, c, i))
      modifies this
      ensures Valid() && led.stack == old(led).stack
      ensures CloneProgress(mem0, led0, mem, led, p, c, i + 1, 0) && TablesKept(old(mem), mem, c)
    {
      hide SpaceOk, FreeListOk, PdSlot, Pde, PdptFrame, FrameOf, ClearW, DataShared, LeavesKept, MemOk;
      for j := 0 to WORDS_PER_PAGE
        invariant Valid() && led.stack == old(led).stack
        invariant CloneProgress(mem0, led0, mem, led, p, c, i, j)
        invariant TablesKept(old(mem), mem, p) && TablesKept(old(mem), mem, c)
      {
        ghost var mem1, led1 := mem, led;
        var pte := At(mem, pPt, j);
        assert Leaf(mem, p, i, j) == pte && Leaf(mem, c, i, j) == At(mem, cPt, j);
        assert LeafCloned(mem0, mem, p, c, i, j, Done(i, j, i, j));
        if Present(pte) {
          ShareLeaf(p, c, i, pPt, cPt, j);
        } else {
          DataSharedRefl(mem0, led0.own, mem, led.own, p);
        }
        CloneStep(mem0, led0, mem1, led1, mem, led, p, c, i, j);
      }
      CloneNextTable(mem0, led0, mem, led, p, c, i, WORDS_PER_PAGE);
    }

    /** A fresh space with an empty private page directory. */
    method NewChild() returns (child: Option<Word>)
      requires Valid()
      modifies this
      ensures child.None? <==> |old(led).stack| < 3
      ensures child.Some? ==>
                && var c := FrameOf(child.value);
                && child.value == c * PAGE_SIZE && Valid()
                && c !in old(led).spaces && led.spaces == old(led).spaces + {c}
                && led.stack == old(led).stack[..|old(led).stack| - 3]
                && DataKept(old(mem), old(led).own, mem, led.own)
                && LeavesKept(old(mem), mem, old(led).spaces)
                && (forall s | s in old(led).spaces :: TablesKept(old(mem), mem, s))
                && Present(PdSlot(mem, c))
                && forall i | 0 <= i < WORDS_PER_PAGE :: Pde(mem, c, i) == 0
    {
      hide SpaceOk, FreeListOk, PdSlot, Pde, PdptFrame, Leaf, FrameOf, Writable, User;
      child := BuildUserTable();
      if child.None? { return; }
      ghost var c, mem1 := FrameOf(child.value), mem;
      var upd := AllocZeroed();
      if upd.None? { return None; }
      ghost var mem2 := mem;
      ghost var f := FrameOf(upd.value);
      EntryBits(f);
      UpperLevels(mem, freeHead, kpd, led, c);
      NewPdKeeps(mem, freeHead, kpd, led, c, f);
      mem := Put(mem, PdptFrame(mem, FrameOf(child.value)), 1, upd.value + PTE_P + PTE_W + PTE_U);
      led := led.(own := led.own[f := Pd(c)]);
      assert TablesKept(mem1, mem2, c);
    }

    /** An empty page table of the child under entry i, as the outer loop links it. */
    method AddChildPt(ghost mem0: Ram, ghost led0: Ledger, ghost p: nat, ghost c: nat, i: nat, cUpd: nat) returns (pt: Option<Word>)
      requires Valid() && p in led0.spaces && c !in led0.spaces && i < WORDS_PER_PAGE
      requires CloneProgress(mem0, led0, mem, led, p, c, i, 0)
      requires Present(PdSlot(mem, c)) && FrameOf(PdSlot(mem, c)) == cUpd && !Present(Pde(mem, c, i))
      modifies this
      ensures pt.None? <==> old(led).stack == []
      ensures pt.Some? ==>
                && Valid() && CloneProgress(mem0, led0, mem, led, p, c, i, 0) && TablesKept(old(mem), mem, p)
                && led.stack == old(led).stack[..|old(led).stack| - 1]
                && PdSlot(mem, c) == PdSlot(old(mem), c)
                && Present(Pde(mem, c, i)) && FrameOf(Pde(mem, c, i)) == FrameOf(pt.value)
                && forall k | 0 <= k < WORDS_PER_PAGE && k != i :: Pde(mem, c, k) == Pde(old(mem), c, k)
    {
      hide SpaceOk, FreeListOk, PdSlot, Pde, PdptFrame, Leaf, FrameOf, Writable, User, DataShared, LeafCloned;
      ghost var mem1, led1 := mem, led;
      pt := AllocZeroed();
      if pt.None? { return; }
      ghost var f, mem2 := FrameOf(pt.value), mem;
      EntryBits(f);
      UpperLevels(mem, freeHead, kpd, led, c);
      NewPtKeeps(mem, freeHead, kpd, led, c, i, f);
      mem := Put(mem, cUpd, i, pt.value + PTE_P + PTE_W + PTE_U);
      led := led.(own := led.own[f := Pt(c, i)]);
      assert LeavesKept(mem1, mem, led.spaces) by {
        assert LeavesKept(mem1, mem2, led.spaces) && LeavesKept(mem2, mem, led.spaces);
      }
      CloneUndisturbed(mem0, led0, mem1, led1, mem, led, p, c, i);
    }

    /** clone_user_table: None is the out-of-frames panic. */
    method CloneUserTable(parent: Word) returns (child: Option<Word>)
      requires Valid() && parent % PAGE_SIZE == 0 && FrameOf(parent) in led.spaces
      requires Present(PdSlot(mem, FrameOf(parent)))
      modifies this
      ensures child.None? <==> |old(led).stack| < 3 + PresentPdes(old(mem), FrameOf(parent), WORDS_PER_PAGE)
      ensures child.Some? ==>
                && var p, c := FrameOf(parent), FrameOf(child.value);
                && child.value == c * PAGE_SIZE && Valid() && c !in old(led).spaces
                && led.stack == old(led).stack[..|old(led).stack| - 3 - PresentPdes(old(mem), p, WORDS_PER_PAGE)]
                && CloneProgress(old(mem), old(led), mem, led, p, c, WORDS_PER_PAGE, 0)
    {
      hide SpaceOk, FreeListOk, PdSlot, Pde, PdptFrame, Leaf, FrameOf, Writable, User, DataShared, LeavesKept;
      ghost var mem0, led0 := mem, led;
      ghost var p := FrameOf(parent);
      var pUpd := FrameOf(PdSlot(mem, FrameOf(parent)));
      child := NewChild();
      if child.None? { return; }
      ghost var c := FrameOf(child.value);
      var cUpd := FrameOf(PdSlot(mem, FrameOf(child.value)));
      CloneStart(mem0, led0, mem, led, p, c);
      for i := 0 to WORDS_PER_PAGE
        invariant Valid() && CloneProgress(mem0, led0, mem, led, p, c, i, 0)
        invariant Present(PdSlot(mem, c)) && FrameOf(PdSlot(mem, c)) == cUpd
        invariant forall k | i <= k < WORDS_PER_PAGE :: !Present(Pde(mem, c, k))
        invariant |led.stack| + 3 + PresentPdes(mem0, p, i) == |led0.stack|
        invariant led.stack == led0.stack[..|led.stack|]
      {
        var pde := At(mem, pUpd, i);
        PdeByDirectory(mem, p, i);
        PresentPdesGrow(mem0, p, i + 1, WORDS_PER_PAGE);
        if Present(pde) {
          var pt := AddChildPt(mem0, led0, p, c, i, cUpd);
          if pt.None? { return None; }
          ClonePt(mem0, led0, p, c, i, FrameOf(pde), FrameOf(pt.value));
        } else {
          CloneNextTable(mem0, led0, mem, led, p, c, i, 0);
        }
      }
    }
  }
}
