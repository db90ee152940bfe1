// What a process table entry means: the flat memory its page tables describe
// and the registers saved on its kernel stack.

module ProcessView {
  import opened PageTables
  import opened PhysMemory
  import opened RoundRobin
  import opened KernelSpec

  /** Byte size of the saved frame; it sits at the very top of the kernel stack. */
  const FRAME_BYTES := 160
  const FRAME_WORD := 492

  datatype Proc = Proc(pml4: Word, kstackTop: Word, frame: Word, state: PState, brk: Word)

  /** Pages from the code page up to the break. */
  function NPages(brk: Word): nat { if brk < USER_CODE_VA then 0 else (brk - USER_CODE_VA) / PAGE_SIZE }

  /** The saved frame at physical address `ptr`. */
  function FrameAt(mem: Ram, ptr: Word): Regs {
    if FrameOf(ptr) < |mem| then mem[FrameOf(ptr)][FRAME_WORD..] else ZERO_REGS
  }

  /** A page with the saved frame replaced. */
  function WithFrame(page: Page, regs: Regs): Page { page[..FRAME_WORD] + regs }

  /** The page leaf w maps; untouched heap pages read as zero. */
  function PageOfLeaf(mem: Ram, w: Word): Page {
    if Present(w) && FrameOf(w) < |mem| then mem[FrameOf(w)] else ZeroPage()
  }

  /** The first n pages of the space rooted at r. */
  function View(mem: Ram, r: nat, n: nat): seq<Page> {
    seq(n, j requires 0 <= j < n => PageOfLeaf(mem, Leaf(mem, r, 0, j)))
  }

  /** Only pages below the break are mapped; code and stack always are. */
  ghost predicate MappedOk(mem: Ram, r: nat, n: nat) {
    && Present(Leaf(mem, r, 0, 0)) && Present(Leaf(mem, r, 0, 1))
    && forall i, j | 0 <= i < WORDS_PER_PAGE && 0 <= j < WORDS_PER_PAGE ::
         Present(Leaf(mem, r, i, j)) ==> i == 0 && j < n
  }

  predicate BrkOk(brk: Word) { brk % PAGE_SIZE == 0 && USER_DATA_VA <= brk <= BRK_MAX }

  ghost predicate KStackOk(own: seq<Role>, p: Proc, slot: nat) {
    && p.kstackTop % PAGE_SIZE == 0 && p.kstackTop >= PAGE_SIZE
    && HasRole(own, FrameOf(p.kstackTop) - 1, KStack(slot))
    && p.frame == p.kstackTop - FRAME_BYTES
  }

  ghost predicate ProcOk(mem: Ram, led: Ledger, p: Proc, slot: nat) {
    && p.pml4 % PAGE_SIZE == 0 && FrameOf(p.pml4) in led.spaces
    && KStackOk(led.own, p, slot)
    && BrkOk(p.brk)
    && MappedOk(mem, FrameOf(p.pml4), NPages(p.brk))
  }

  ghost predicate ProcsOk(mem: Ram, led: Ledger, procs: seq<Proc>) {
    && |procs| == NPROC
    && (forall s | 0 <= s < NPROC && procs[s].state != EMPTY :: ProcOk(mem, led, procs[s], s))
    && forall s, t | 0 <= s < t < NPROC && procs[s].state != EMPTY && procs[t].state != EMPTY ::
         procs[s].pml4 != procs[t].pml4
  }

  function AbsProc(mem: Ram, p: Proc): SProc {
    if p.state == EMPTY then DEAD
    else SProc(p.state, View(mem, FrameOf(p.pml4), NPages(p.brk)), FrameAt(mem, p.frame))
  }

  function AbsProcs(mem: Ram, procs: seq<Proc>): seq<SProc> {
    seq(|procs|, s requires 0 <= s < |procs| => AbsProc(mem, procs[s]))
  }

  // ---- What does not change a process ---------------------------------------

  /** Two leaves that map the same page, whatever their write permission. */
  predicate SamePage(w: Word, w': Word) {
    Present(w) == Present(w') && (Present(w) ==> FrameOf(w) == FrameOf(w'))
  }

  ghost predicate SamePages(mem: Ram, r: nat, mem': Ram, r': nat) {
    forall i, j | 0 <= i < WORDS_PER_PAGE && 0 <= j < WORDS_PER_PAGE ::
      SamePage(Leaf(mem, r, i, j), Leaf(mem', r', i, j))
  }

  /** The frames the view of space r can reach. */
  predicate InView(role: Role, r: nat) { role.Shared? || (role.Private? && role.root == r) }

  ghost predicate ViewFramesKept(mem: Ram, own: seq<Role>, mem': Ram, r: nat) {
    && |mem'| == |mem| == |own|
    && forall f | 0 <= f < |own| && InView(own[f], r) :: mem'[f] == mem[f]
  }

  /** Same pages in place, same contents: same view. */
  lemma ViewFrame(mem: Ram, head: Word, kpd: nat, led: Ledger, r: nat, mem': Ram, r': nat, n: nat)
    requires MemOk(mem, head, kpd, led) && r in led.spaces && n <= WORDS_PER_PAGE
    requires SamePages(mem, r, mem', r') && ViewFramesKept(mem, led.own, mem', r)
    ensures View(mem', r', n) == View(mem, r, n)
    ensures MappedOk(mem, r, n) ==> MappedOk(mem', r', n)
  {
    hide MemOk, Leaf;
    forall j | 0 <= j < n
      ensures PageOfLeaf(mem', Leaf(mem', r', 0, j)) == PageOfLeaf(mem, Leaf(mem, r, 0, j))
    {
      LeafFacts(mem, head, kpd, led, r, 0, j);
      assert SamePage(Leaf(mem, r, 0, j), Leaf(mem', r', 0, j));
    }
    if MappedOk(mem, r, n) {
      forall i, j | 0 <= i < WORDS_PER_PAGE && 0 <= j < WORDS_PER_PAGE
        ensures Present(Leaf(mem', r', i, j)) ==> i == 0 && j < n
      {
        assert SamePage(Leaf(mem, r, i, j), Leaf(mem', r', i, j));
      }
      assert SamePage(Leaf(mem, r, 0, 0), Leaf(mem', r', 0, 0));
      assert SamePage(Leaf(mem, r, 0, 1), Leaf(mem', r', 0, 1));
    }
  }

  /** A process is untouched by anything that leaves its pages and its stack alone. */
  lemma ProcFrame(mem: Ram, head: Word, kpd: nat, led: Ledger, mem': Ram, led': Ledger, p: Proc, slot: nat)
    requires MemOk(mem, head, kpd, led) && ProcOk(mem, led, p, slot) && p.state != EMPTY
    requires SamePages(mem, FrameOf(p.pml4), mem', FrameOf(p.pml4))
    requires ViewFramesKept(mem, led.own, mem', FrameOf(p.pml4))
    requires led.spaces <= led'.spaces && |led'.own| == |led.own|
    requires forall f | 0 <= f < |led.own| && led.own[f] == KStack(slot) :: led'.own[f] == led.own[f] && mem'[f] == mem[f]
    ensures ProcOk(mem', led', p, slot) && AbsProc(mem', p) == AbsProc(mem, p)
  {
    hide MemOk, Leaf, View, MappedOk, SamePages;
    ViewFrame(mem, head, kpd, led, FrameOf(p.pml4), mem', FrameOf(p.pml4), NPages(p.brk));
  }

  /** Everything ProcFrame asks about process p in slot s, across one change. */
  ghost predicate Undisturbed(mem: Ram, led: Ledger, mem': Ram, led': Ledger, p: Proc, s: nat) {
    && SamePages(mem, FrameOf(p.pml4), mem', FrameOf(p.pml4))
    && ViewFramesKept(mem, led.own, mem', FrameOf(p.pml4))
    && led.spaces <= led'.spaces && |led'.own| == |led.own|
    && forall f | 0 <= f < |led.own| && led.own[f] == KStack(s) :: led'.own[f] == led.own[f] && mem'[f] == mem[f]
  }

  /** A change that disturbs no live process but the one in `slot`. */
  lemma OthersKept(mem: Ram, head: Word, kpd: nat, led: Ledger, mem': Ram, led': Ledger, procs: seq<Proc>, slot: nat)
    requires MemOk(mem, head, kpd, led) && ProcsOk(mem, led, procs)
    requires forall s | 0 <= s < NPROC && s != slot && procs[s].state != EMPTY :: Undisturbed(mem, led, mem', led', procs[s], s)
    ensures forall s | 0 <= s < NPROC && s != slot && procs[s].state != EMPTY :: ProcOk(mem', led', procs[s], s)
    ensures forall s | 0 <= s < NPROC && s != slot :: AbsProc(mem', procs[s]) == AbsProc(mem, procs[s])
  {
    hide MemOk, SamePages, ViewFramesKept, View, FrameAt;
    forall s | 0 <= s < NPROC && s != slot && procs[s].state != EMPTY
      ensures ProcOk(mem', led', procs[s], s) && AbsProc(mem', procs[s]) == AbsProc(mem, procs[s])
    {
      ProcFrame(mem, head, kpd, led, mem', led', procs[s], s);
    }
  }

  // ---- Entering the kernel: the registers go onto the kernel stack ------------

  lemma SaveKeeps(mem: Ram, head: Word, kpd: nat, led: Ledger, procs: seq<Proc>, slot: nat, regs: Regs)
    requires MemOk(mem, head, kpd, led) && ProcsOk(mem, led, procs) && slot < NPROC && procs[slot].state != EMPTY
    ensures FrameOf(procs[slot].frame) < |mem|
    ensures var k := FrameOf(procs[slot].frame);
      var mem' := mem[k := WithFrame(mem[k], regs)];
      && MemOk(mem', head, kpd, led) && ProcsOk(mem', led, procs) && LeavesKept(mem, mem', led.spaces)
      && (forall r | r in led.spaces :: TablesKept(mem, mem', r))
      && AbsProcs(mem', procs) == AbsProcs(mem, procs)[slot := AbsProc(mem, procs[slot]).(regs := regs)]
      && DataKeptBut(mem, led.own, mem', led.own, k)
  {
    hide MemOk, View, Leaf, MappedOk;
    var p := procs[slot];
    var k := FrameOf(p.frame);
    FramePointer(led.own, p, slot);
    MemSize(mem, head, kpd, led);
    var mem' := mem[k := WithFrame(mem[k], regs)];
    WriteKeeps(mem, head, kpd, led, k, WithFrame(mem[k], regs));
    forall s | 0 <= s < NPROC && s != slot && procs[s].state != EMPTY
      ensures Undisturbed(mem, led, mem', led, procs[s], s)
    {
    }
    OthersKept(mem, head, kpd, led, mem', led, procs, slot);
    ViewFrame(mem, head, kpd, led, FrameOf(p.pml4), mem', FrameOf(p.pml4), NPages(p.brk));
    assert FrameAt(mem', p.frame) == regs;
  }

  /** The saved frame lies in the slot's own kernel-stack frame. */
  lemma FramePointer(own: seq<Role>, p: Proc, slot: nat)
    requires KStackOk(own, p, slot)
    ensures HasRole(own, FrameOf(p.frame), KStack(slot))
  {}

  // ---- Giving a frame a use of its own ----------------------------------------

  /** A loose frame becomes a data frame of some other kind. */
  lemma RelabelKeeps(mem: Ram, head: Word, kpd: nat, led: Ledger, f: nat, role: Role)
    requires MemOk(mem, head, kpd, led) && HasRole(led.own, f, Loose)
    ensures MemOk(mem, head, kpd, led.(own := led.own[f := role]))
  {
    FreeFrame(mem, led.own, led.stack, mem, led.own[f := role], head);
    SpacesFrame(mem, led.own, mem, led.own[f := role], kpd, led.spaces);
  }

  /** A change that keeps every leaf and every data frame keeps every process. */
  lemma AllKept(mem: Ram, head: Word, kpd: nat, led: Ledger, mem': Ram, led': Ledger, procs: seq<Proc>)
    requires MemOk(mem, head, kpd, led) && ProcsOk(mem, led, procs)
    requires DataKept(mem, led.own, mem', led'.own) && LeavesKept(mem, mem', led.spaces) && led.spaces <= led'.spaces
    ensures ProcsOk(mem', led', procs) && AbsProcs(mem', procs) == AbsProcs(mem, procs)
  {
    hide MemOk, View, Leaf, MappedOk, FrameAt, KStackOk;
    forall s | 0 <= s < NPROC && procs[s].state != EMPTY
      ensures Undisturbed(mem, led, mem', led', procs[s], s)
    {
      assert ProcOk(mem, led, procs[s], s);
    }
    OthersKept(mem, head, kpd, led, mem', led', procs, NPROC);
  }

  /** Filling an empty slot. */
  lemma InstallProc(mem: Ram, led: Ledger, procs: seq<Proc>, i: nat, p: Proc)
    requires ProcsOk(mem, led, procs) && i < NPROC && procs[i].state == EMPTY
    requires ProcOk(mem, led, p, i)
    requires forall s | 0 <= s < NPROC && procs[s].state != EMPTY :: procs[s].pml4 != p.pml4
    ensures ProcsOk(mem, led, procs[i := p])
    ensures AbsProcs(mem, procs[i := p]) == AbsProcs(mem, procs)[i := AbsProc(mem, p)]
  {
    hide View, FrameAt, MappedOk;
  }

  // ---- fork -------------------------------------------------------------------

  /** After the tables are cloned nobody's memory has changed, and the child sees the parent's. */
  lemma CloneView(mem: Ram, head: Word, kpd: nat, led: Ledger, mem': Ram, led': Ledger, procs: seq<Proc>, cur: nat, c: nat)
    requires MemOk(mem, head, kpd, led) && ProcsOk(mem, led, procs) && cur < NPROC && procs[cur].state != EMPTY
    requires CloneProgress(mem, led, mem', led', FrameOf(procs[cur].pml4), c, WORDS_PER_PAGE, 0)
    ensures ProcsOk(mem', led', procs) && AbsProcs(mem', procs) == AbsProcs(mem, procs)
    ensures var r, n := FrameOf(procs[cur].pml4), NPages(procs[cur].brk);
      View(mem', c, n) == View(mem, r, n) && MappedOk(mem', c, n)
  {
    hide MemOk, View, Leaf, MappedOk, FrameAt, KStackOk, ClearW, Present, FrameOf;
    var r, n := FrameOf(procs[cur].pml4), NPages(procs[cur].brk);
    forall i, j | 0 <= i < WORDS_PER_PAGE && 0 <= j < WORDS_PER_PAGE
      ensures SamePage(Leaf(mem, r, i, j), Leaf(mem', r, i, j))
      ensures SamePage(Leaf(mem, r, i, j), Leaf(mem', c, i, j))
    {
      assert LeafCloned(mem, mem', r, c, i, j, Done(WORDS_PER_PAGE, 0, i, j));
      ClearWBits(Leaf(mem, r, i, j));
      ZeroAbsent();
    }
    forall s | 0 <= s < NPROC && procs[s].state != EMPTY
      ensures Undisturbed(mem, led, mem', led', procs[s], s)
    {
      assert ProcOk(mem, led, procs[s], s);
      if s != cur {
        DistinctRoots(mem, led, procs, s, cur);
      }
    }
    OthersKept(mem, head, kpd, led, mem', led', procs, NPROC);
    ViewFrame(mem, head, kpd, led, r, mem', c, n);
  }

  lemma ZeroAbsent()
    ensures !Present(0)
  {}

  lemma DistinctRoots(mem: Ram, led: Ledger, procs: seq<Proc>, s: nat, t: nat)
    requires ProcsOk(mem, led, procs) && s < NPROC && t < NPROC && s != t
    requires procs[s].state != EMPTY && procs[t].state != EMPTY
    ensures FrameOf(procs[s].pml4) != FrameOf(procs[t].pml4)
  {
    hide View, MappedOk, KStackOk;
    assert ProcOk(mem, led, procs[s], s) && ProcOk(mem, led, procs[t], t);
    if s < t {
      assert procs[s].pml4 != procs[t].pml4;
    } else {
      assert procs[t].pml4 != procs[s].pml4;
    }
  }

  // ---- One page of one process changes ----------------------------------------

  /** Leaf (0, j) of r now maps a page of its own; the view changes there and nowhere else. */
  lemma ViewSetLeaf(mem: Ram, head: Word, kpd: nat, led: Ledger, mem': Ram, r: nat, n: nat, j: nat, w: Word)
    requires MemOk(mem, head, kpd, led) && r in led.spaces && j < n <= WORDS_PER_PAGE
    requires MappedOk(mem, r, n) && LeafSet(mem, mem', led.spaces, r, 0, j, w)
    requires ViewFramesKept(mem, led.own, mem', r) && Present(w) && FrameOf(w) < |mem'|
    ensures MappedOk(mem', r, n) && View(mem', r, n) == View(mem, r, n)[j := mem'[FrameOf(w)]]
  {
    hide MemOk, Leaf;
    forall k | 0 <= k < n && k != j
      ensures PageOfLeaf(mem', Leaf(mem', r, 0, k)) == PageOfLeaf(mem, Leaf(mem, r, 0, k))
    {
      LeafFacts(mem, head, kpd, led, r, 0, k);
      assert (r, 0, k) != (r, 0, j);
      assert Leaf(mem', r, 0, k) == Leaf(mem, r, 0, k);
    }
    forall a, b | 0 <= a < WORDS_PER_PAGE && 0 <= b < WORDS_PER_PAGE
      ensures Present(Leaf(mem', r, a, b)) ==> a == 0 && b < n
    {
      assert (a, b) != (0, j) ==> Leaf(mem', r, a, b) == Leaf(mem, r, a, b);
    }
    assert 0 != j ==> Leaf(mem', r, 0, 0) == Leaf(mem, r, 0, 0);
    assert 1 != j ==> Leaf(mem', r, 0, 1) == Leaf(mem, r, 0, 1);
  }

  /** A store through a writable leaf changes that page of that space, and no other view. */
  lemma ViewStore(mem: Ram, head: Word, kpd: nat, led: Ledger, r: nat, n: nat, j: nat, page: Page)
    requires MemOk(mem, head, kpd, led) && r in led.spaces && j < n <= WORDS_PER_PAGE && MappedOk(mem, r, n)
    requires Present(Leaf(mem, r, 0, j)) && Writable(Leaf(mem, r, 0, j))
    ensures var f := FrameOf(Leaf(mem, r, 0, j));
      && f < |mem| && HasRole(led.own, f, Private(r, 0, j))
      && MemOk(mem[f := page], head, kpd, led) && LeavesKept(mem, mem[f := page], led.spaces)
      && MappedOk(mem[f := page], r, n) && View(mem[f := page], r, n) == View(mem, r, n)[j := page]
  {
    hide MemOk, Leaf;
    MemSize(mem, head, kpd, led);
    LeafFacts(mem, head, kpd, led, r, 0, j);
    var f := FrameOf(Leaf(mem, r, 0, j));
    var mem' := mem[f := page];
    WriteKeeps(mem, head, kpd, led, f, page);
    forall k | 0 <= k < n
      ensures Leaf(mem', r, 0, k) == Leaf(mem, r, 0, k)
      ensures k != j ==> PageOfLeaf(mem', Leaf(mem', r, 0, k)) == PageOfLeaf(mem, Leaf(mem, r, 0, k))
    {
      LeafFacts(mem, head, kpd, led, r, 0, k);
    }
    assert forall a, b | 0 <= a < WORDS_PER_PAGE && 0 <= b < WORDS_PER_PAGE :: Leaf(mem', r, a, b) == Leaf(mem, r, a, b);
  }

  /** Put the new view of one live process next to the unchanged others. */
  lemma OneChanged(mem: Ram, head: Word, kpd: nat, led: Ledger, mem': Ram, led': Ledger, procs: seq<Proc>, slot: nat, pages: seq<Page>)
    requires MemOk(mem, head, kpd, led) && ProcsOk(mem, led, procs) && slot < NPROC && procs[slot].state != EMPTY
    requires forall s | 0 <= s < NPROC && s != slot && procs[s].state != EMPTY :: Undisturbed(mem, led, mem', led', procs[s], s)
    requires led.spaces <= led'.spaces && |led'.own| == |led.own| && |mem'| == |mem|
    requires forall f | 0 <= f < |led.own| && led.own[f] == KStack(slot) :: led'.own[f] == led.own[f] && mem'[f] == mem[f]
    requires MappedOk(mem', FrameOf(procs[slot].pml4), NPages(procs[slot].brk))
    requires View(mem', FrameOf(procs[slot].pml4), NPages(procs[slot].brk)) == pages
    ensures ProcsOk(mem', led', procs)
    ensures AbsProcs(mem', procs) == AbsProcs(mem, procs)[slot := AbsProc(mem, procs[slot]).(pages := pages)]
  {
    hide MemOk, View, Leaf, MappedOk, SamePages, ViewFramesKept;
    assert ProcOk(mem, led, procs[slot], slot);
    FramePointer(led.own, procs[slot], slot);
    MemSize(mem, head, kpd, led);
    OthersKept(mem, head, kpd, led, mem', led', procs, slot);
  }

  // ---- The page-fault arms ------------------------------------------------------

  /** Leaf (0, j) of a live process set to map a page equal to the one it shows. */
  lemma RemapKeeps(mem: Ram, head: Word, kpd: nat, led: Ledger, mem': Ram, led': Ledger, procs: seq<Proc>, slot: nat, j: nat, w: Word)
    requires MemOk(mem, head, kpd, led) && ProcsOk(mem, led, procs) && slot < NPROC && procs[slot].state != EMPTY
    requires var r := FrameOf(procs[slot].pml4);
      && j < NPages(procs[slot].brk) && LeafSet(mem, mem', led.spaces, r, 0, j, w)
      && Present(w) && FrameOf(w) < |mem'| == |mem| && mem'[FrameOf(w)] == PageOfLeaf(mem, Leaf(mem, r, 0, j))
    requires DataKept(mem, led.own, mem', led'.own) && led.spaces == led'.spaces
    ensures ProcsOk(mem', led', procs) && AbsProcs(mem', procs) == AbsProcs(mem, procs)
  {
    hide MemOk, Leaf, MappedOk, KStackOk, Present, FrameOf;
    var r, n := FrameOf(procs[slot].pml4), NPages(procs[slot].brk);
    assert ProcOk(mem, led, procs[slot], slot);
    ViewSetLeaf(mem, head, kpd, led, mem', r, n, j, w);
    assert View(mem', r, n) == View(mem, r, n);
    forall s | 0 <= s < NPROC && s != slot && procs[s].state != EMPTY
      ensures Undisturbed(mem, led, mem', led', procs[s], s)
    {
      assert ProcOk(mem, led, procs[s], s);
      DistinctRoots(mem, led, procs, s, slot);
    }
    OneChanged(mem, head, kpd, led, mem', led', procs, slot, View(mem, r, n));
    assert AbsProcs(mem, procs)[slot] == AbsProc(mem, procs[slot]);
  }
}
