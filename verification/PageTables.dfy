// Physical memory of the x86-64 kernel: frames, page-table entries, the free
// list threaded through the free frames, and the ledger that says what every
// frame is being used for.

module PageTables {
  const WORDS_PER_PAGE := 512
  const PAGE_SIZE := 4096
  /** Frames the 1 GiB identity map reaches. */
  const IDENTITY_FRAMES := 0x40000

  type Word = w: int | 0 <= w < 0x1_0000_0000_0000_0000
  type Page = p: seq<Word> | |p| == WORDS_PER_PAGE witness seq(WORDS_PER_PAGE, _ => 0)
  /** RAM, one page per 4 KiB frame; a physical address is 4096 * frame + offset. */
  type Ram = seq<Page>

  function ZeroPage(): Page { seq(WORDS_PER_PAGE, _ => 0) }

  // ---- Page-table entries -------------------------------------------------

  const PTE_P := 1
  const PTE_W := 2
  const PTE_U := 4

  predicate Present(w: Word) { w % 2 == 1 }
  predicate Writable(w: Word) { w / 2 % 2 == 1 }
  predicate User(w: Word) { w / 4 % 2 == 1 }

  /** The frame an entry, or a page-aligned address, names: `w & !0xFFF`. */
  function FrameOf(w: Word): nat { w / PAGE_SIZE }

  /** `w & !PTE_W`. */
  function ClearW(w: Word): Word { if Writable(w) then w - PTE_W else w }

  /** Clearing W keeps the frame and the other flags. */
  lemma ClearWBits(w: Word)
    ensures FrameOf(ClearW(w)) == FrameOf(w) && !Writable(ClearW(w))
    ensures Present(ClearW(w)) == Present(w) && User(ClearW(w)) == User(w)
  {
    var q, b := w / 4, w % 4;
    assert w == 4 * q + b && ClearW(w) == 4 * q + b % 2;
    assert FrameOf(w) == q / 1024 && FrameOf(ClearW(w)) == q / 1024;
  }

  /** `frame | flags` for flags below the frame bits. */
  function Entry(f: nat, flags: nat): Word
    requires f < IDENTITY_FRAMES && flags < PAGE_SIZE
  {
    f * PAGE_SIZE + flags
  }

  lemma Halved(q: nat, b: nat)
    requires b < 2
    ensures (2 * q + b) / 2 == q && (2 * q + b) % 2 == b
  {}

  /** What is above them does not show in the three low bits. */
  lemma LowThree(q: nat, b: nat)
    requires b < 8
    ensures (8 * q + b) % 2 == b % 2 && (8 * q + b) / 2 % 2 == b / 2 % 2 && (8 * q + b) / 4 % 2 == b / 4
  {
    var x, c, e := 8 * q + b, b / 2, b / 4;
    assert b == 2 * c + b % 2 && c == 2 * e + c % 2;
    Halved(4 * q + c, b % 2);
    Halved(2 * q + e, c % 2);
    Halved(q, e);
    assert x / 2 == 4 * q + c && x / 4 == x / 2 / 2;
  }

  /** The flag combinations the kernel writes: P|W|U for user levels, P|W for the kernel PD. */
  lemma EntryBits(f: nat)
    requires f < IDENTITY_FRAMES
    ensures FrameOf(Entry(f, 7)) == FrameOf(Entry(f, 3)) == f
    ensures Present(Entry(f, 7)) && Writable(Entry(f, 7)) && User(Entry(f, 7))
    ensures Present(Entry(f, 3)) && Writable(Entry(f, 3)) && !User(Entry(f, 3))
  {
    assert Entry(f, 7) == 8 * (512 * f) + 7 && Entry(f, 3) == 8 * (512 * f) + 3;
    LowThree(512 * f, 7);
    LowThree(512 * f, 3);
  }

  /** Word `i` of frame `f`; nothing answers outside RAM. */
  function At(mem: Ram, f: int, i: int): Word {
    if 0 <= f < |mem| && 0 <= i < WORDS_PER_PAGE then mem[f][i] else 0
  }

  /** One 64-bit store at word `i` of frame `f`. */
  function Put(mem: Ram, f: nat, i: nat, w: Word): Ram
    requires f < |mem| && i < WORDS_PER_PAGE
  {
    mem[f := mem[f][i := w]]
  }

  // ---- What a frame is used for -------------------------------------------

  datatype Role =
    | Kernel                              // image, boot tables, anything below 1 MiB
    | Free(height: nat)                   // on the free list, `height` frames below it
    | Loose                               // handed out, not yet linked into anything
    | Pml4(root: nat)
    | Pdpt(root: nat)
    | Pd(root: nat)
    | Pt(root: nat, i: nat)               // page table under entry i of the user PD
    | Private(root: nat, i: nat, j: nat)  // user page named only by leaf (i, j) of root
    | Shared                              // user page named by read-only leaves
    | KStack(slot: nat)

  predicate IsTable(role: Role) { role.Pml4? || role.Pdpt? || role.Pd? || role.Pt? }

  /** Frames whose contents the page tables and the allocator never touch. */
  predicate IsData(role: Role) { !IsTable(role) && !role.Free? }

  datatype Ledger = Ledger(own: seq<Role>, stack: seq<nat>, spaces: set<nat>)

  ghost predicate HasRole(own: seq<Role>, f: nat, role: Role) {
    f < |own| && own[f] == role
  }

  // ---- Free list ----------------------------------------------------------

  /** The link word for the frame at height h: the frame below it, or 0. */
  function Link(stack: seq<nat>, h: nat): int
    requires h <= |stack|
  {
    if h == 0 then 0 else stack[h - 1] * PAGE_SIZE
  }

  ghost predicate FreeNodeOk(mem: Ram, own: seq<Role>, stack: seq<nat>, h: nat)
    requires h < |stack|
  {
    0 < stack[h] < |mem| && HasRole(own, stack[h], Free(h)) && At(mem, stack[h], 0) == Link(stack, h)
  }

  /** The list from `head` runs down the stack; roles carry heights, so no frame occurs twice. */
  ghost predicate FreeListOk(mem: Ram, head: Word, own: seq<Role>, stack: seq<nat>) {
    && head == Link(stack, |stack|)
    && forall h | 0 <= h < |stack| :: FreeNodeOk(mem, own, stack, h)
  }

  // ---- Address spaces -----------------------------------------------------

  /** A leaf is writable exactly when its frame is private to that very leaf. */
  ghost predicate LeafOk(own: seq<Role>, r: nat, i: nat, j: nat, w: Word) {
    Present(w) ==>
      && User(w)
      && HasRole(own, FrameOf(w), if Writable(w) then Private(r, i, j) else Shared)
  }

  ghost predicate PdeOk(mem: Ram, own: seq<Role>, r: nat, i: nat, e: Word) {
    Present(e) ==>
      && Writable(e) && User(e)
      && HasRole(own, FrameOf(e), Pt(r, i))
      && forall j | 0 <= j < WORDS_PER_PAGE :: LeafOk(own, r, i, j, At(mem, FrameOf(e), j))
  }

  ghost predicate PdSlotOk(mem: Ram, own: seq<Role>, r: nat, e: Word) {
    Present(e) ==>
      && Writable(e) && User(e)
      && HasRole(own, FrameOf(e), Pd(r))
      && forall i | 0 <= i < WORDS_PER_PAGE :: PdeOk(mem, own, r, i, At(mem, FrameOf(e), i))
  }

  /** The shared kernel PD: present and writable, closed to ring 3. */
  predicate KernelSlotOk(e: Word, kpd: nat) {
    Present(e) && Writable(e) && !User(e) && FrameOf(e) == kpd
  }

  /** The tables under PML4 frame r: a private chain over 0x40000000..0x80000000. */
  ghost predicate SpaceOk(mem: Ram, own: seq<Role>, kpd: nat, r: nat) {
    && HasRole(own, r, Pml4(r))
    && (forall k | 0 < k < WORDS_PER_PAGE :: !Present(At(mem, r, k)))
    && var e := At(mem, r, 0);
    && Present(e) && Writable(e) && User(e)
    && HasRole(own, FrameOf(e), Pdpt(r))
    && (forall k | 2 <= k < WORDS_PER_PAGE :: !Present(At(mem, FrameOf(e), k)))
    && KernelSlotOk(At(mem, FrameOf(e), 0), kpd)
    && PdSlotOk(mem, own, r, At(mem, FrameOf(e), 1))
  }

  function PdptFrame(mem: Ram, r: nat): nat { FrameOf(At(mem, r, 0)) }

  /** PDPT entry 1: the link to the private page directory. */
  function PdSlot(mem: Ram, r: nat): Word { At(mem, PdptFrame(mem, r), 1) }

  /** Entry i of the private page directory, 0 when there is none. */
  function Pde(mem: Ram, r: nat, i: nat): Word {
    if Present(PdSlot(mem, r)) then At(mem, FrameOf(PdSlot(mem, r)), i) else 0
  }

  /** Leaf (i, j) of the space rooted at r, 0 when a level is missing. */
  function Leaf(mem: Ram, r: nat, i: nat, j: nat): Word {
    if Present(Pde(mem, r, i)) then At(mem, FrameOf(Pde(mem, r, i)), j) else 0
  }

  // ---- The whole invariant --------------------------------------------------

  ghost predicate MemOk(mem: Ram, head: Word, kpd: nat, led: Ledger) {
    && |mem| == |led.own| <= IDENTITY_FRAMES
    && HasRole(led.own, kpd, Kernel)
    && FreeListOk(mem, head, led.own, led.stack)
    && forall r | r in led.spaces :: SpaceOk(mem, led.own, kpd, r)
  }

  lemma MemSize(mem: Ram, head: Word, kpd: nat, led: Ledger)
    requires MemOk(mem, head, kpd, led)
    ensures |mem| == |led.own| <= IDENTITY_FRAMES
  {}

  /** Every leaf of every listed space is as before. */
  ghost predicate LeavesKept(mem: Ram, mem': Ram, spaces: set<nat>) {
    forall r, i, j | r in spaces && 0 <= i < WORDS_PER_PAGE && 0 <= j < WORDS_PER_PAGE ::
      Leaf(mem', r, i, j) == Leaf(mem, r, i, j)
  }

  /** The tables of r link to each other as before. */
  ghost predicate TablesKept(mem: Ram, mem': Ram, r: nat) {
    && PdptFrame(mem', r) == PdptFrame(mem, r)
    && PdSlot(mem', r) == PdSlot(mem, r)
    && forall i | 0 <= i < WORDS_PER_PAGE :: Pde(mem', r, i) == Pde(mem, r, i)
  }

  /** Data frames keep their contents and their use. */
  ghost predicate DataKept(mem: Ram, own: seq<Role>, mem': Ram, own': seq<Role>) {
    && |mem'| == |mem| == |own| == |own'|
    && forall f | 0 <= f < |own| && IsData(own[f]) :: own'[f] == own[f] && mem'[f] == mem[f]
  }

  predicate TableOf(role: Role, r: nat) { IsTable(role) && role.root == r }
  predicate PageOf(role: Role, r: nat) { role.Shared? || (role.Private? && role.root == r) }

  /** A space depends only on its own tables and on the roles of its pages. */
  lemma SpaceFrame(mem: Ram, own: seq<Role>, mem': Ram, own': seq<Role>, kpd: nat, r: nat)
    requires |mem| == |own| == |mem'| == |own'|
    requires SpaceOk(mem, own, kpd, r)
    requires forall f | 0 <= f < |own| && TableOf(own[f], r) :: own'[f] == own[f] && mem'[f] == mem[f]
    requires forall f | 0 <= f < |own| && PageOf(own[f], r) :: own'[f] == own[f]
    ensures SpaceOk(mem', own', kpd, r)
    ensures LeavesKept(mem, mem', {r}) && TablesKept(mem, mem', r)
  {
    assert TableOf(own[r], r);
    assert forall k | 0 <= k < WORDS_PER_PAGE :: At(mem', r, k) == At(mem, r, k);
    var q := PdptFrame(mem, r);
    assert TableOf(own[q], r);
    assert forall k | 0 <= k < WORDS_PER_PAGE :: At(mem', q, k) == At(mem, q, k);
    var e := At(mem, q, 1);
    if Present(e) {
      assert TableOf(own[FrameOf(e)], r);
      forall i | 0 <= i < WORDS_PER_PAGE
        ensures PdeOk(mem', own', r, i, At(mem', FrameOf(e), i))
      {
        var d := At(mem, FrameOf(e), i);
        assert PdeOk(mem, own, r, i, d);
        if Present(d) {
          assert TableOf(own[FrameOf(d)], r);
          forall j | 0 <= j < WORDS_PER_PAGE
            ensures LeafOk(own', r, i, j, At(mem', FrameOf(d), j))
          {
            assert LeafOk(own, r, i, j, At(mem, FrameOf(d), j));
          }
        }
      }
    }
    forall i, j | 0 <= i < WORDS_PER_PAGE && 0 <= j < WORDS_PER_PAGE
      ensures Leaf(mem', r, i, j) == Leaf(mem, r, i, j)
      ensures Pde(mem', r, i) == Pde(mem, r, i)
    {
      if Present(e) {
        assert PdeOk(mem, own, r, i, At(mem, FrameOf(e), i));
        if Present(At(mem, FrameOf(e), i)) {
          assert TableOf(own[FrameOf(At(mem, FrameOf(e), i))], r);
        }
      }
    }
  }

  // ---- One primitive step at a time ---------------------------------------

  /** All listed spaces survive a change confined to other frames. */
  lemma SpacesFrame(mem: Ram, own: seq<Role>, mem': Ram, own': seq<Role>, kpd: nat, spaces: set<nat>)
    requires |mem| == |own| == |mem'| == |own'|
    requires forall r | r in spaces :: SpaceOk(mem, own, kpd, r)
    requires forall f | 0 <= f < |own| && IsTable(own[f]) :: own'[f] == own[f] && mem'[f] == mem[f]
    requires forall f | 0 <= f < |own| && (own[f].Private? || own[f].Shared?) :: own'[f] == own[f]
    ensures forall r | r in spaces :: SpaceOk(mem', own', kpd, r)
    ensures LeavesKept(mem, mem', spaces)
    ensures forall r | r in spaces :: TablesKept(mem, mem', r)
  {
    forall r | r in spaces
      ensures SpaceOk(mem', own', kpd, r)
      ensures LeavesKept(mem, mem', {r}) && TablesKept(mem, mem', r)
    {
      SpaceFrame(mem, own, mem', own', kpd, r);
    }
  }

  /** The free list depends only on the free frames. */
  lemma FreeFrame(mem: Ram, own: seq<Role>, stack: seq<nat>, mem': Ram, own': seq<Role>, head: Word)
    requires |mem| == |own| == |mem'| == |own'|
    requires FreeListOk(mem, head, own, stack)
    requires forall f | 0 <= f < |own| && own[f].Free? :: own'[f] == own[f] && mem'[f] == mem[f]
    ensures FreeListOk(mem', head, own', stack)
  {
    forall h | 0 <= h < |stack|
      ensures FreeNodeOk(mem', own', stack, h)
    {
      assert FreeNodeOk(mem, own, stack, h);
    }
  }

  /** Popping the free list: the frame leaves it and belongs to nobody yet. */
  lemma AllocKeeps(mem: Ram, head: Word, kpd: nat, led: Ledger)
    requires MemOk(mem, head, kpd, led) && |led.stack| > 0
    ensures var f := led.stack[|led.stack| - 1];
      && head == f * PAGE_SIZE && 0 < f < |mem| && f < |led.own| && led.own[f].Free?
      && MemOk(mem, At(mem, f, 0), kpd,
               led.(own := led.own[f := Loose], stack := led.stack[..|led.stack| - 1]))
      && DataKept(mem, led.own, mem, led.own[f := Loose])
  {
    var top := |led.stack| - 1;
    assert FreeNodeOk(mem, led.own, led.stack, top);
    var f := led.stack[top];
    var own' := led.own[f := Loose];
    SpacesFrame(mem, led.own, mem, own', kpd, led.spaces);
    forall h | 0 <= h < top
      ensures FreeNodeOk(mem, own', led.stack[..top], h)
    {
      assert FreeNodeOk(mem, led.own, led.stack, h);
    }
  }

  /** Pushing a frame that nobody uses: it becomes the new head. */
  lemma FreeKeeps(mem: Ram, head: Word, kpd: nat, led: Ledger, f: nat)
    requires MemOk(mem, head, kpd, led)
    requires 0 < f && HasRole(led.own, f, Loose)
    ensures var mem' := Put(mem, f, 0, head);
      MemOk(mem', f * PAGE_SIZE, kpd,
            led.(own := led.own[f := Free(|led.stack|)], stack := led.stack + [f]))
      && LeavesKept(mem, mem', led.spaces)
  {
    var mem' := Put(mem, f, 0, head);
    var own' := led.own[f := Free(|led.stack|)];
    SpacesFrame(mem, led.own, mem', own', kpd, led.spaces);
    forall h | 0 <= h < |led.stack|
      ensures FreeNodeOk(mem', own', led.stack + [f], h)
    {
      assert FreeNodeOk(mem, led.own, led.stack, h);
    }
  }

  /** Overwriting a frame that is neither a table nor free disturbs nothing else. */
  lemma WriteKeeps(mem: Ram, head: Word, kpd: nat, led: Ledger, f: nat, page: Page)
    requires MemOk(mem, head, kpd, led)
    requires f < |mem| && IsData(led.own[f])
    ensures MemOk(mem[f := page], head, kpd, led)
    ensures LeavesKept(mem, mem[f := page], led.spaces)
    ensures forall r | r in led.spaces :: TablesKept(mem, mem[f := page], r)
  {
    FreeFrame(mem, led.own, led.stack, mem[f := page], led.own, head);
    SpacesFrame(mem, led.own, mem[f := page], led.own, kpd, led.spaces);
  }

  // ---- Building and editing address spaces ---------------------------------

  /** Linking a zeroed PML4 and PDPT, with the shared kernel PD in PDPT slot 0. */
  lemma NewSpaceKeeps(mem: Ram, head: Word, kpd: nat, led: Ledger, r: nat, q: nat)
    requires MemOk(mem, head, kpd, led)
    requires HasRole(led.own, r, Loose) && HasRole(led.own, q, Loose) && r != q
    requires mem[r] == ZeroPage() && mem[q] == ZeroPage()
    ensures var mem' := Put(Put(mem, r, 0, Entry(q, 7)), q, 0, Entry(kpd, 3));
      var led' := led.(own := led.own[r := Pml4(r)][q := Pdpt(r)], spaces := led.spaces + {r});
      && MemOk(mem', head, kpd, led') && r !in led.spaces
      && LeavesKept(mem, mem', led.spaces)
      && (forall s | s in led.spaces :: TablesKept(mem, mem', s))
      && !Present(PdSlot(mem', r))
  {
    var mem' := Put(Put(mem, r, 0, Entry(q, 7)), q, 0, Entry(kpd, 3));
    var own' := led.own[r := Pml4(r)][q := Pdpt(r)];
    assert forall s | s in led.spaces :: SpaceOk(mem, led.own, kpd, s) && led.own[s] == Pml4(s);
    FreeFrame(mem, led.own, led.stack, mem', own', head);
    SpacesFrame(mem, led.own, mem', own', kpd, led.spaces);
    FreshSpaceOk(mem', own', kpd, r, q);
  }

  /** A PML4 and PDPT that are zero but for the two links form a space with no user page. */
  lemma FreshSpaceOk(mem: Ram, own: seq<Role>, kpd: nat, r: nat, q: nat)
    requires |mem| == |own| <= IDENTITY_FRAMES && kpd < |mem|
    requires HasRole(own, r, Pml4(r)) && HasRole(own, q, Pdpt(r))
    requires mem[r] == ZeroPage()[0 := Entry(q, 7)] && mem[q] == ZeroPage()[0 := Entry(kpd, 3)]
    ensures SpaceOk(mem, own, kpd, r) && !Present(PdSlot(mem, r))
  {
    EntryBits(q);
    EntryBits(kpd);
    assert At(mem, r, 0) == Entry(q, 7) && At(mem, q, 0) == Entry(kpd, 3) && At(mem, q, 1) == 0;
    assert forall k | 0 < k < WORDS_PER_PAGE :: At(mem, r, k) == 0 && At(mem, q, k) == 0;
  }

  /** A space stays well formed when only its directory and page tables were edited. */
  lemma RebuildSpace(mem: Ram, own: seq<Role>, mem': Ram, own': seq<Role>, kpd: nat, r: nat)
    requires |mem| == |own| == |mem'| == |own'|
    requires SpaceOk(mem, own, kpd, r) && Present(PdSlot(mem, r))
    requires forall f | 0 <= f < |own| && own[f] in {Pml4(r), Pdpt(r), Pd(r)} :: own'[f] == own[f]
    requires forall f | 0 <= f < |own| && own[f] in {Pml4(r), Pdpt(r)} :: mem'[f] == mem[f]
    requires forall k | 0 <= k < WORDS_PER_PAGE ::
               PdeOk(mem', own', r, k, At(mem', FrameOf(PdSlot(mem, r)), k))
    ensures SpaceOk(mem', own', kpd, r) && PdSlot(mem', r) == PdSlot(mem, r) && PdptFrame(mem', r) == PdptFrame(mem, r)
  {
    assert own[r] in {Pml4(r), Pdpt(r), Pd(r)};
    var q := PdptFrame(mem, r);
    assert own[q] in {Pml4(r), Pdpt(r), Pd(r)};
    assert own[FrameOf(PdSlot(mem, r))] in {Pml4(r), Pdpt(r), Pd(r)};
    assert forall k | 0 <= k < WORDS_PER_PAGE :: At(mem', r, k) == At(mem, r, k);
    assert forall k | 0 <= k < WORDS_PER_PAGE :: At(mem', q, k) == At(mem, q, k);
  }

  /** A space that is not `r` keeps everything when only r's tables change. */
  lemma OtherSpacesFrame(mem: Ram, own: seq<Role>, mem': Ram, own': seq<Role>, kpd: nat, spaces: set<nat>, r: nat)
    requires |mem| == |own| == |mem'| == |own'|
    requires forall s | s in spaces :: SpaceOk(mem, own, kpd, s)
    requires forall f | 0 <= f < |own| && IsTable(own[f]) && own[f].root != r :: own'[f] == own[f] && mem'[f] == mem[f]
    requires forall f | 0 <= f < |own| && (own[f].Shared? || (own[f].Private? && own[f].root != r)) :: own'[f] == own[f]
    ensures forall s | s in spaces && s != r :: SpaceOk(mem', own', kpd, s)
    ensures LeavesKept(mem, mem', spaces - {r})
    ensures forall s | s in spaces && s != r :: TablesKept(mem, mem', s)
  {
    forall s | s in spaces && s != r
      ensures SpaceOk(mem', own', kpd, s)
      ensures LeavesKept(mem, mem', {s}) && TablesKept(mem, mem', s)
    {
      SpaceFrame(mem, own, mem', own', kpd, s);
    }
  }

  /** Linking a zeroed page directory into PDPT slot 1. */
  lemma NewPdKeeps(mem: Ram, head: Word, kpd: nat, led: Ledger, r: nat, pd: nat)
    requires MemOk(mem, head, kpd, led) && r in led.spaces
    requires HasRole(led.own, pd, Loose) && mem[pd] == ZeroPage() && !Present(PdSlot(mem, r))
    ensures PdptFrame(mem, r) < |mem|
    ensures var mem' := Put(mem, PdptFrame(mem, r), 1, Entry(pd, 7));
      && MemOk(mem', head, kpd, led.(own := led.own[pd := Pd(r)]))
      && LeavesKept(mem, mem', led.spaces)
      && PdSlot(mem', r) == Entry(pd, 7)
      && (forall i | 0 <= i < WORDS_PER_PAGE :: Pde(mem', r, i) == 0)
      && forall s | s in led.spaces && s != r :: TablesKept(mem, mem', s)
  {
    assert SpaceOk(mem, led.own, kpd, r);
    var q := PdptFrame(mem, r);
    var mem' := Put(mem, q, 1, Entry(pd, 7));
    var own' := led.own[pd := Pd(r)];
    FreeFrame(mem, led.own, led.stack, mem', own', head);
    OtherSpacesFrame(mem, led.own, mem', own', kpd, led.spaces, r);
    FreshPdOk(mem', own', r, pd);
    LinkPdOk(mem, led.own, mem', own', kpd, r, Entry(pd, 7));
  }

  /** A zeroed page directory maps nothing. */
  lemma FreshPdOk(mem: Ram, own: seq<Role>, r: nat, pd: nat)
    requires |mem| == |own| <= IDENTITY_FRAMES
    requires HasRole(own, pd, Pd(r)) && mem[pd] == ZeroPage()
    ensures PdSlotOk(mem, own, r, Entry(pd, 7))
    ensures forall i | 0 <= i < WORDS_PER_PAGE :: At(mem, pd, i) == 0
  {
    assert forall i | 0 <= i < WORDS_PER_PAGE :: At(mem, pd, i) == 0;
  }

  /** Changing only PDPT slot 1 keeps the upper levels. */
  lemma LinkPdOk(mem: Ram, own: seq<Role>, mem': Ram, own': seq<Role>, kpd: nat, r: nat, e: Word)
    requires |mem| == |own| == |mem'| == |own'|
    requires SpaceOk(mem, own, kpd, r)
    requires mem'[r] == mem[r] && own'[r] == own[r]
    requires var q := PdptFrame(mem, r); mem'[q] == mem[q][1 := e] && own'[q] == own[q]
    requires PdSlotOk(mem', own', r, e)
    ensures SpaceOk(mem', own', kpd, r) && PdSlot(mem', r) == e
  {
    var q := PdptFrame(mem, r);
    assert forall k | 0 <= k < WORDS_PER_PAGE :: At(mem', r, k) == At(mem, r, k);
    assert forall k | 0 <= k < WORDS_PER_PAGE && k != 1 :: At(mem', q, k) == At(mem, q, k);
    assert At(mem', q, 1) == e;
  }

  /** Linking a zeroed page table under entry i of the page directory. */
  lemma NewPtKeeps(mem: Ram, head: Word, kpd: nat, led: Ledger, r: nat, i: nat, pt: nat)
    requires MemOk(mem, head, kpd, led) && r in led.spaces && i < WORDS_PER_PAGE
    requires HasRole(led.own, pt, Loose) && mem[pt] == ZeroPage()
    requires Present(PdSlot(mem, r)) && !Present(Pde(mem, r, i))
    ensures FrameOf(PdSlot(mem, r)) < |mem|
    ensures var mem' := Put(mem, FrameOf(PdSlot(mem, r)), i, Entry(pt, 7));
      && MemOk(mem', head, kpd, led.(own := led.own[pt := Pt(r, i)]))
      && LeavesKept(mem, mem', led.spaces)
      && PdSlot(mem', r) == PdSlot(mem, r)
      && Pde(mem', r, i) == Entry(pt, 7)
      && (forall k | 0 <= k < WORDS_PER_PAGE && k != i :: Pde(mem', r, k) == Pde(mem, r, k))
      && forall s | s in led.spaces && s != r :: TablesKept(mem, mem', s)
  {
    assert SpaceOk(mem, led.own, kpd, r);
    var pd := FrameOf(PdSlot(mem, r));
    var mem' := Put(mem, pd, i, Entry(pt, 7));
    var own' := led.own[pt := Pt(r, i)];
    FreeFrame(mem, led.own, led.stack, mem', own', head);
    OtherSpacesFrame(mem, led.own, mem', own', kpd, led.spaces, r);
    forall k | 0 <= k < WORDS_PER_PAGE
      ensures PdeOk(mem', own', r, k, At(mem', pd, k))
      ensures k != i ==> At(mem', pd, k) == At(mem, pd, k)
      ensures forall j | 0 <= j < WORDS_PER_PAGE :: TableLeaf(mem', At(mem', pd, k), j) == TableLeaf(mem, At(mem, pd, k), j)
    {
      assert PdeOk(mem, led.own, r, k, At(mem, pd, k));
      if k == i {
        FreshPtOk(mem', own', r, i, pt);
      } else {
        PdeFrame(mem, led.own, mem', own', r, pd, k, i);
      }
    }
    RebuildSpace(mem, led.own, mem', own', kpd, r);
    LeafByTable(mem, mem', r);
  }

  /** A zeroed page table under entry i maps nothing. */
  lemma FreshPtOk(mem: Ram, own: seq<Role>, r: nat, i: nat, pt: nat)
    requires |mem| == |own| <= IDENTITY_FRAMES
    requires HasRole(own, pt, Pt(r, i)) && mem[pt] == ZeroPage()
    ensures PdeOk(mem, own, r, i, Entry(pt, 7))
    ensures forall j | 0 <= j < WORDS_PER_PAGE :: TableLeaf(mem, Entry(pt, 7), j) == 0
  {
    assert forall j | 0 <= j < WORDS_PER_PAGE :: At(mem, pt, j) == 0;
  }

  /** Entry j of the page table that directory entry e names. */
  function TableLeaf(mem: Ram, e: Word, j: nat): Word {
    if Present(e) then At(mem, FrameOf(e), j) else 0
  }

  lemma LeafByTable(mem: Ram, mem': Ram, r: nat)
    requires Present(PdSlot(mem, r)) && PdSlot(mem', r) == PdSlot(mem, r)
    ensures forall i: nat, j: nat :: Leaf(mem, r, i, j) == TableLeaf(mem, At(mem, FrameOf(PdSlot(mem, r)), i), j)
    ensures forall i: nat, j: nat :: Leaf(mem', r, i, j) == TableLeaf(mem', At(mem', FrameOf(PdSlot(mem, r)), i), j)
  {}

  /** Directory entries other than `i` do not notice a change under entry `i`. */
  lemma PdeFrame(mem: Ram, own: seq<Role>, mem': Ram, own': seq<Role>, r: nat, pd: nat, k: nat, i: nat)
    requires |mem| == |own| == |mem'| == |own'|
    requires k < WORDS_PER_PAGE && PdeOk(mem, own, r, k, At(mem, pd, k))
    requires forall f | 0 <= f < |own| && own[f] == Pt(r, k) && k != i :: own'[f] == own[f] && mem'[f] == mem[f]
    requires forall f | 0 <= f < |own| && (own[f].Shared? || (own[f].Private? && own[f].i == k && k != i)) :: own'[f] == own[f]
    requires k != i ==> At(mem', pd, k) == At(mem, pd, k)
    ensures k != i ==> PdeOk(mem', own', r, k, At(mem', pd, k))
    ensures k != i && Present(At(mem, pd, k)) ==>
              forall j | 0 <= j < WORDS_PER_PAGE :: At(mem', FrameOf(At(mem, pd, k)), j) == At(mem, FrameOf(At(mem, pd, k)), j)
  {
    var e := At(mem, pd, k);
    if k != i && Present(e) {
      forall j | 0 <= j < WORDS_PER_PAGE
        ensures LeafOk(own', r, k, j, At(mem', FrameOf(e), j))
      {
        assert LeafOk(own, r, k, j, At(mem, FrameOf(e), j));
      }
    }
  }

  /** Everything but leaf (i, j) of r is as before, and that leaf is w. */
  ghost predicate LeafSet(mem: Ram, mem': Ram, spaces: set<nat>, r: nat, i: nat, j: nat, w: Word) {
    && Leaf(mem', r, i, j) == w
    && forall s, a, b | s in spaces && 0 <= a < WORDS_PER_PAGE && 0 <= b < WORDS_PER_PAGE && (s, a, b) != (r, i, j) ::
         Leaf(mem', s, a, b) == Leaf(mem, s, a, b)
  }

  /** Writing one leaf, while the page it named or now names changes its use. */
  lemma LeafWriteKeeps(mem: Ram, head: Word, kpd: nat, led: Ledger, own': seq<Role>, r: nat, i: nat, j: nat, w: Word)
    requires MemOk(mem, head, kpd, led) && r in led.spaces && i < WORDS_PER_PAGE && j < WORDS_PER_PAGE
    requires Present(Pde(mem, r, i))
    requires |own'| == |led.own|
    requires forall f | 0 <= f < |own'| :: own'[f] != led.own[f] ==> led.own[f].Loose? || led.own[f] == Private(r, i, j)
    requires LeafOk(own', r, i, j, w)
    ensures FrameOf(Pde(mem, r, i)) < |mem|
    ensures var mem' := Put(mem, FrameOf(Pde(mem, r, i)), j, w);
      && MemOk(mem', head, kpd, led.(own := own'))
      && LeafSet(mem, mem', led.spaces, r, i, j, w)
      && forall s | s in led.spaces :: TablesKept(mem, mem', s)
  {
    assert SpaceOk(mem, led.own, kpd, r);
    var pd := FrameOf(PdSlot(mem, r));
    assert PdeOk(mem, led.own, r, i, At(mem, pd, i));
    var pt := FrameOf(Pde(mem, r, i));
    var mem' := Put(mem, pt, j, w);
    FreeFrame(mem, led.own, led.stack, mem', own', head);
    OtherSpacesFrame(mem, led.own, mem', own', kpd, led.spaces, r);
    forall b | 0 <= b < WORDS_PER_PAGE
      ensures LeafOk(own', r, i, b, At(mem', pt, b))
    {
      assert LeafOk(led.own, r, i, b, At(mem, pt, b));
    }
    forall k | 0 <= k < WORDS_PER_PAGE
      ensures At(mem', pd, k) == At(mem, pd, k)
      ensures PdeOk(mem', own', r, k, At(mem', pd, k))
      ensures forall b | 0 <= b < WORDS_PER_PAGE && (k, b) != (i, j) ::
                TableLeaf(mem', At(mem', pd, k), b) == TableLeaf(mem, At(mem, pd, k), b)
    {
      assert PdeOk(mem, led.own, r, k, At(mem, pd, k));
      PdeFrame(mem, led.own, mem', own', r, pd, k, i);
    }
    RebuildSpace(mem, led.own, mem', own', kpd, r);
    LeafByTable(mem, mem', r);
  }

  // ---- What the invariant means ---------------------------------------------

  /** The upper levels of a listed space, each in a frame of its own role. */
  lemma UpperLevels(mem: Ram, head: Word, kpd: nat, led: Ledger, r: nat)
    requires MemOk(mem, head, kpd, led) && r in led.spaces
    ensures HasRole(led.own, r, Pml4(r)) && HasRole(led.own, PdptFrame(mem, r), Pdpt(r))
    ensures var e := At(mem, r, 0); Present(e) && Writable(e) && User(e)
    ensures forall k | 0 < k < WORDS_PER_PAGE :: !Present(At(mem, r, k))
    ensures forall k | 2 <= k < WORDS_PER_PAGE :: !Present(At(mem, PdptFrame(mem, r), k))
    ensures KernelSlotOk(At(mem, PdptFrame(mem, r), 0), kpd)
    ensures Present(PdSlot(mem, r)) ==>
      && Writable(PdSlot(mem, r)) && User(PdSlot(mem, r))
      && HasRole(led.own, FrameOf(PdSlot(mem, r)), Pd(r))
  {
    assert SpaceOk(mem, led.own, kpd, r);
  }

  /** Every present leaf is user-accessible and names a page of the right kind. */
  lemma LeafFacts(mem: Ram, head: Word, kpd: nat, led: Ledger, r: nat, i: nat, j: nat)
    requires MemOk(mem, head, kpd, led) && r in led.spaces && i < WORDS_PER_PAGE && j < WORDS_PER_PAGE
    ensures LeafOk(led.own, r, i, j, Leaf(mem, r, i, j))
    ensures Present(Leaf(mem, r, i, j)) ==> Present(Pde(mem, r, i))
    ensures Present(Pde(mem, r, i)) ==>
      && Present(PdSlot(mem, r)) && Writable(Pde(mem, r, i)) && User(Pde(mem, r, i))
      && HasRole(led.own, FrameOf(Pde(mem, r, i)), Pt(r, i))
  {
    assert SpaceOk(mem, led.own, kpd, r);
    if Present(PdSlot(mem, r)) {
      assert PdeOk(mem, led.own, r, i, At(mem, FrameOf(PdSlot(mem, r)), i));
    }
  }

  /** A writable leaf is the only leaf in any table naming its frame. */
  lemma WritableLeafIsOnlyNamer(mem: Ram, head: Word, kpd: nat, led: Ledger,
                                r: nat, i: nat, j: nat, s: nat, a: nat, b: nat)
    requires MemOk(mem, head, kpd, led) && r in led.spaces && s in led.spaces
    requires i < WORDS_PER_PAGE && j < WORDS_PER_PAGE && a < WORDS_PER_PAGE && b < WORDS_PER_PAGE
    requires Present(Leaf(mem, r, i, j)) && Writable(Leaf(mem, r, i, j))
    requires Present(Leaf(mem, s, a, b)) && FrameOf(Leaf(mem, s, a, b)) == FrameOf(Leaf(mem, r, i, j))
    ensures (s, a, b) == (r, i, j)
  {
    LeafFacts(mem, head, kpd, led, r, i, j);
    LeafFacts(mem, head, kpd, led, s, a, b);
  }
}
