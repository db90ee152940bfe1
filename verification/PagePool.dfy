// The Mik-64 kernel's page allocator, alloc_page and free_page, instruction by
// instruction, with paging on or off: a free list threaded through the free
// pages, then a bump pointer.

module PagePool {
  import opened Mik64Mmu
  import opened Mik64Cpu
  import opened Mik64Bisim
  import opened FlatCode
  import opened SupervisorCode
  import opened KernelCode

  /** The page with the allocator's words and the kernel's other state. */
  const NEXT_PAGE := 0x70_0000
  const FREE_HEAD := 0x70_0008

  /** That page is within reach and holds no table. */
  predicate StateOk(v: Env) { Fits(NEXT_PAGE, 512, v) && NEXT_PAGE / 4096 !in v.tables }

  /** A page that can be handed out: neither page 0 nor the state page, within reach, no table. */
  predicate PageOk(p: nat, v: Env) { p != 0 && p != NEXT_PAGE && p % 4096 == 0 && Fits(p, 512, v) && p / 4096 !in v.tables }

  /** The nodes from h on, linked through their first words, ending in 0. */
  ghost predicate List(mem: Ram8, h: Word, pages: seq<nat>, v: Env)
    decreases |pages|
  {
    if pages == [] then h == 0
    else h == pages[0] && PageOk(h, v) && List(mem, Read64(mem, h), pages[1..], v)
  }

  ghost predicate Distinct(pages: seq<nat>) { forall i, j | 0 <= i < j < |pages| :: pages[i] != pages[j] }

  /** The allocator's state: free pages, most recently freed first, and the next unused page. */
  ghost predicate PoolIs(mem: Ram8, pages: seq<nat>, next: Word, v: Env) {
    List(mem, Read64(mem, FREE_HEAD), pages, v) && Distinct(pages) && Read64(mem, NEXT_PAGE) == next
  }

  /** alloc_page, its branch resolved. */
  function AllocCode(): (code: seq<Ins>)
    ensures |code| == 9
  {
    [Ins(LOAD64, 2, 0, 0, FREE_HEAD), Ins(BEQ, 0, 2, 0, 4),
     Ins(LOAD64, 3, 2, 0, 0), Ins(STORE64, 0, 0, 3, FREE_HEAD), Ins(JMPR, 0, 15, 0, 0),
     Ins(LOAD64, 2, 0, 0, NEXT_PAGE), Ins(ADDI, 3, 2, 0, 0x1000), Ins(STORE64, 0, 0, 3, NEXT_PAGE), Ins(JMPR, 0, 15, 0, 0)]
  }

  /** free_page. */
  function FreeCode(): (code: seq<Ins>)
    ensures |code| == 4
  {
    [Ins(LOAD64, 3, 0, 0, FREE_HEAD), Ins(STORE64, 0, 2, 3, 0), Ins(STORE64, 0, 0, 2, FREE_HEAD), Ins(JMPR, 0, 15, 0, 0)]
  }

  // ---- Lists and stores ---------------------------------------------------------------

  lemma {:induction false} NodesOk(mem: Ram8, h: Word, pages: seq<nat>, v: Env)
    requires List(mem, h, pages, v)
    ensures forall i | 0 <= i < |pages| :: PageOk(pages[i], v)
    decreases |pages|
  {
    hide Read64;
    if pages != [] {
      NodesOk(mem, Read64(mem, h), pages[1..], v);
      assert forall i | 0 < i < |pages| :: pages[i] == pages[1..][i - 1];
    }
  }

  /** Memories that agree on the links hold the same list. */
  lemma {:induction false} ListKept(mem: Ram8, mem': Ram8, h: Word, pages: seq<nat>, v: Env)
    requires List(mem, h, pages, v)
    requires forall i | 0 <= i < |pages| && pages[i] + 8 <= RAM_SIZE :: Read64(mem', pages[i]) == Read64(mem, pages[i])
    ensures List(mem', h, pages, v)
    decreases |pages|
  {
    hide Read64;
    if pages != [] {
      assert Read64(mem', pages[0]) == Read64(mem, pages[0]);
      assert forall i | 0 <= i < |pages| - 1 :: pages[1..][i] == pages[i + 1];
      ListKept(mem, mem', Read64(mem, h), pages[1..], v);
    }
  }

  lemma StoredList(mem: Ram8, h: Word, pages: seq<nat>, v: Env, a: nat, w: Word)
    requires List(mem, h, pages, v) && a + 8 <= RAM_SIZE && forall i | 0 <= i < |pages| :: Apart(pages[i], 8, a, 8)
    ensures List(Write64(mem, a, w), h, pages, v)
  {
    hide Read64, Write64;
    forall i | 0 <= i < |pages| && pages[i] + 8 <= RAM_SIZE
      ensures Read64(Write64(mem, a, w), pages[i]) == Read64(mem, pages[i])
    {
      ReadApart(mem, a, w, pages[i]);
    }
    ListKept(mem, Write64(mem, a, w), h, pages, v);
  }

  /** A store to the state page away from the allocator's two words, or to a table, is nothing to the pool. */
  lemma PoolStored(mem: Ram8, pages: seq<nat>, next: Word, v: Env, a: nat, w: Word)
    requires PoolIs(mem, pages, next, v) && a + 8 <= RAM_SIZE && a % 8 == 0
    requires NEXT_PAGE + 16 <= a < NEXT_PAGE + 4096 || a / 4096 in v.tables
    requires StateOk(v)
    ensures PoolIs(Write64(mem, a, w), pages, next, v)
  {
    hide Read64, Write64;
    NodesOk(mem, Read64(mem, FREE_HEAD), pages, v);
    forall i | 0 <= i < |pages| ensures Apart(pages[i], 8, a, 8) {
      assert PageOk(pages[i], v);
      OffPage(pages[i], a);
    }
    StoredList(mem, Read64(mem, FREE_HEAD), pages, v, a, w);
    if a / 4096 in v.tables {
      OffPage(NEXT_PAGE, a);
    }
    ReadApart(mem, a, w, FREE_HEAD);
    ReadApart(mem, a, w, NEXT_PAGE);
  }

  /** Marks in the leaf tables are nothing to the pool. */
  lemma PoolAlike(mem: Ram8, mem': Ram8, pages: seq<nat>, next: Word, v: Env)
    requires PoolIs(mem, pages, next, v) && Alike(mem, mem', v) && StateOk(v)
    ensures PoolIs(mem', pages, next, v)
  {
    hide Read64, Alike;
    NodesOk(mem, Read64(mem, FREE_HEAD), pages, v);
    forall i | 0 <= i < |pages| && pages[i] + 8 <= RAM_SIZE ensures Read64(mem', pages[i]) == Read64(mem, pages[i]) {
      assert PageOk(pages[i], v);
      WordKept(mem, mem', pages[i], v);
    }
    ListKept(mem, mem', Read64(mem, FREE_HEAD), pages, v);
    WordKept(mem, mem', FREE_HEAD, v);
    WordKept(mem, mem', NEXT_PAGE, v);
  }

  /** The list after its head moved on. */
  lemma PopList(mem: Ram8, pages: seq<nat>, next: Word, v: Env)
    requires PoolIs(mem, pages, next, v) && pages != []
    ensures Read64(mem, FREE_HEAD) == pages[0] && PageOk(pages[0], v)
    ensures PoolIs(Write64(mem, FREE_HEAD, Read64(mem, pages[0])), pages[1..], next, v)
  {
    hide Read64, Write64;
    var h := Read64(mem, FREE_HEAD);
    var w := Read64(mem, h);
    NodesOk(mem, h, pages, v);
    var rest := pages[1..];
    forall i | 0 <= i < |rest| ensures Apart(rest[i], 8, FREE_HEAD, 8) { assert PageOk(pages[i + 1], v); }
    StoredList(mem, w, rest, v, FREE_HEAD, w);
    ReadBack(mem, FREE_HEAD, w);
    ReadApart(mem, FREE_HEAD, w, NEXT_PAGE);
    forall i, j | 0 <= i < j < |rest| ensures rest[i] != rest[j] {
      assert pages[i + 1] != pages[j + 1];
    }
  }

  /** The list after a page was linked in front. */
  lemma PushList(mem: Ram8, pages: seq<nat>, next: Word, p: Word, v: Env)
    requires PoolIs(mem, pages, next, v) && PageOk(p, v) && p as nat !in pages
    ensures PoolIs(Write64(Write64(mem, p, Read64(mem, FREE_HEAD)), FREE_HEAD, p), [p] + pages, next, v)
  {
    hide Read64, Write64;
    var h := Read64(mem, FREE_HEAD);
    var mem1, all := Write64(mem, p, h), [p] + pages;
    var mem2 := Write64(mem1, FREE_HEAD, p);
    NodesOk(mem, h, pages, v);
    forall i | 0 <= i < |pages| ensures Apart(pages[i], 8, p, 8) && Apart(pages[i], 8, FREE_HEAD, 8) {
      assert PageOk(pages[i], v) && pages[i] in pages;
    }
    StoredList(mem, h, pages, v, p, h);
    ReadBack(mem, p, h);
    StoredList(mem1, h, pages, v, FREE_HEAD, p);
    ReadBack(mem1, FREE_HEAD, p);
    ReadApart(mem1, FREE_HEAD, p, p);
    ReadApart(mem, p, h, NEXT_PAGE);
    ReadApart(mem1, FREE_HEAD, p, NEXT_PAGE);
    assert all[1..] == pages;
    forall i, j | 0 <= i < j < |all| ensures all[i] != all[j] {
      assert all[j] == pages[j - 1] && (i > 0 ==> all[i] == pages[i - 1]);
    }
  }

  // ---- The subroutines on the flat machine ----------------------------------------------

  /** A word of a page within reach that holds no table can be overwritten. */
  lemma WordHarmless(mem: Ram8, root: nat, q: nat, j: nat, v: Env)
    requires q % 4096 == 0 && Fits(q, 512, v) && q / 4096 !in v.tables && j < 512
    ensures var a := q + 8 * j; a + 8 <= v.top <= RAM_SIZE && Harmless(mem, root, a, v.tables)
  {
    hide Fillable;
    assert (q + 8 * j) / 4096 == q / 4096;
  }

  /** The code is called at al and does not overlap the state page. */
  ghost predicate Called(m: Machine, p: nat, code: seq<Ins>, v: Env) {
    && m.pc == p && Code(m.mem, p, code, v) && Apart(p, 8 * |code|, NEXT_PAGE, 4096) && StateOk(v)
  }

  function Popped(m: Machine, h: Word, w: Word): Machine {
    m.(pc := m.regs[15], regs := m.regs[2 := h][3 := w], mem := Write64(m.mem, FREE_HEAD, w))
  }

  lemma PopGlides(m: Machine, al: nat, pages: seq<nat>, next: Word, v: Env)
    requires Flat(m) && Called(m, al, AllocCode(), v) && PoolIs(m.mem, pages, next, v) && pages != []
    ensures pages[0] + 8 <= RAM_SIZE && Read64(m.mem, FREE_HEAD) == pages[0]
    ensures Glides(m, 5, Popped(m, pages[0], Read64(m.mem, pages[0])), v)
  {
    hide Step, Code, Read64, Write64, Plus, Glides, Root;
    PopList(m.mem, pages, next, v);
    var c, h := AllocCode(), Read64(m.mem, FREE_HEAD);
    GlidesRefl(m, v);
    ThenLoad(m, 0, m, al, c, 0, FREE_HEAD, v);
    var m1 := Moved(m, al + 8, 2, h);
    ThenJump(m, 1, m1, al, c, 1, v);
    PlusSmall(al + 8, 8);
    var m2 := m1.(pc := al + 16);
    ThenLoad(m, 2, m2, al, c, 2, h, v);
    var w := Read64(m.mem, h);
    var m3 := Moved(m2, al + 24, 3, w);
    ThenStore(m, 3, m3, al, c, 3, FREE_HEAD, v);
    var m4 := Stored(m3, FREE_HEAD, w);
    ThenJump(m, 4, m4, al, c, 4, v);
    assert m4.(pc := m.regs[15]) == Popped(m, h, w);
  }

  function Bumped(m: Machine, next: Word): Machine {
    m.(pc := m.regs[15], regs := m.regs[2 := next][3 := Plus(next, 4096)], mem := Write64(m.mem, NEXT_PAGE, Plus(next, 4096)))
  }

  lemma BumpGlides(m: Machine, al: nat, next: Word, v: Env)
    requires Flat(m) && Called(m, al, AllocCode(), v) && PoolIs(m.mem, [], next, v)
    ensures Glides(m, 6, Bumped(m, next), v) && PoolIs(Bumped(m, next).mem, [], Plus(next, 4096), v)
  {
    hide Step, Code, Read64, Write64, Plus, Glides, Root;
    var c, w := AllocCode(), Plus(next, 4096);
    GlidesRefl(m, v);
    ThenLoad(m, 0, m, al, c, 0, FREE_HEAD, v);
    var m1 := Moved(m, al + 8, 2, 0);
    ThenJump(m, 1, m1, al, c, 1, v);
    PlusSmall(al + 8, 32);
    var m2 := m1.(pc := al + 40);
    ThenLoad(m, 2, m2, al, c, 5, NEXT_PAGE, v);
    var m3 := Moved(m2, al + 48, 2, next);
    ThenReg(m, 3, m3, al, c, 6, v);
    var m4 := Moved(m3, al + 56, 3, w);
    ThenStore(m, 4, m4, al, c, 7, NEXT_PAGE, v);
    var m5 := Stored(m4, NEXT_PAGE, w);
    ThenJump(m, 5, m5, al, c, 8, v);
    assert m5.(pc := m.regs[15]) == Bumped(m, next);
    ReadBack(m.mem, NEXT_PAGE, w);
    ReadApart(m.mem, NEXT_PAGE, w, FREE_HEAD);
  }

  function Pushed(m: Machine, h: Word): Machine
    requires m.regs[2] + 8 <= RAM_SIZE
  {
    m.(pc := m.regs[15], regs := m.regs[3 := h], mem := Write64(Write64(m.mem, m.regs[2], h), FREE_HEAD, m.regs[2]))
  }

  lemma PushGlides(m: Machine, fr: nat, v: Env)
    requires Flat(m) && Called(m, fr, FreeCode(), v) && PageOk(m.regs[2], v) && Apart(fr, 32, m.regs[2], 4096)
    ensures Glides(m, 4, Pushed(m, Read64(m.mem, FREE_HEAD)), v)
  {
    hide Step, Code, Read64, Write64, Plus, Glides, Root, Harmless;
    var c, p, h := FreeCode(), m.regs[2], Read64(m.mem, FREE_HEAD);
    GlidesRefl(m, v);
    ThenLoad(m, 0, m, fr, c, 0, FREE_HEAD, v);
    var m1 := Moved(m, fr + 8, 3, h);
    WordHarmless(m1.mem, Root(m1), p, 0, v);
    ThenStore(m, 1, m1, fr, c, 1, p, v);
    var m2 := Stored(m1, p, h);
    WordHarmless(m2.mem, Root(m2), NEXT_PAGE, 1, v);
    ThenStore(m, 2, m2, fr, c, 2, FREE_HEAD, v);
    var m3 := Stored(m2, FREE_HEAD, p);
    ThenJump(m, 3, m3, fr, c, 3, v);
    assert m3.(pc := m.regs[15]) == Pushed(m, h);
  }

  // ---- The subroutines -----------------------------------------------------------------

  /** Back at the caller, k more steps before any tick: those registers, memory as given up to leaf
      marks, the pool in that state. */
  ghost predicate Back(m: Machine, d: Machine, k: nat, regs: Regs16, mem: Ram8, pages: seq<nat>, next: Word, v: Env) {
    && KernFor(d, k, v) && d.pc == m.regs[15] && d.regs == regs && SameModes(m, d)
    && Alike(mem, d.mem, v) && PoolIs(d.mem, pages, next, v)
  }

  /** alloc_page with free pages: the most recently freed one in x2, the pool without it, and no
      other word changed. */
  lemma AllocPops(m: Machine, al: nat, pages: seq<nat>, next: Word, k: nat, v: Env)
    requires KernFor(m, 5 + k, v) && Called(m, al, AllocCode(), v) && PoolIs(m.mem, pages, next, v) && pages != []
    ensures pages[0] + 8 <= RAM_SIZE
    ensures var w := Read64(m.mem, pages[0]);
      exists d: Machine ::
        && Leads(m, 5, d, v.cached)
        && Back(m, d, k, m.regs[2 := pages[0]][3 := w], Write64(m.mem, FREE_HEAD, w), pages[1..], next, v)
  {
    hide Code, Read64, Write64, Glides, KernFor, Alike, List;
    var s := Shadow(m);
    ShadowFlat(m, 5 + k, v);
    PopGlides(s, al, pages, next, v);
    PopList(m.mem, pages, next, v);
    var w := Read64(m.mem, pages[0]);
    var e := Popped(s, pages[0], w);
    CarriesFor(m, 5, k, e, v);
    var d: Machine :| LandsFor(m, 5, k, d, e, v);
    PoolAlike(e.mem, d.mem, pages[1..], next, v);
  }

  /** alloc_page with none: the next unused page, and the bump pointer a page further. */
  lemma AllocBumps(m: Machine, al: nat, next: Word, k: nat, v: Env)
    requires KernFor(m, 6 + k, v) && Called(m, al, AllocCode(), v) && PoolIs(m.mem, [], next, v)
    ensures var w := Plus(next, 4096);
      exists d: Machine ::
        && Leads(m, 6, d, v.cached)
        && Back(m, d, k, m.regs[2 := next][3 := w], Write64(m.mem, NEXT_PAGE, w), [], w, v)
  {
    hide Code, Read64, Write64, Glides, KernFor, Alike, List, Plus;
    var s := Shadow(m);
    ShadowFlat(m, 6 + k, v);
    BumpGlides(s, al, next, v);
    var e := Bumped(s, next);
    CarriesFor(m, 6, k, e, v);
    var d: Machine :| LandsFor(m, 6, k, d, e, v);
    PoolAlike(e.mem, d.mem, [], Plus(next, 4096), v);
  }

  /** free_page: the page in x2 is the next one alloc_page hands out. */
  lemma FreePushes(m: Machine, fr: nat, pages: seq<nat>, next: Word, k: nat, v: Env)
    requires KernFor(m, 4 + k, v) && Called(m, fr, FreeCode(), v) && PoolIs(m.mem, pages, next, v)
    requires PageOk(m.regs[2], v) && Apart(fr, 32, m.regs[2], 4096) && m.regs[2] as nat !in pages
    ensures var p, h := m.regs[2], Read64(m.mem, FREE_HEAD);
      exists d: Machine ::
        && Leads(m, 4, d, v.cached)
        && Back(m, d, k, m.regs[3 := h], Write64(Write64(m.mem, p, h), FREE_HEAD, p), [p as nat] + pages, next, v)
  {
    hide Code, Read64, Write64, Glides, KernFor, Alike, List;
    var s := Shadow(m);
    ShadowFlat(m, 4 + k, v);
    PushGlides(s, fr, v);
    PushList(m.mem, pages, next, m.regs[2], v);
    var e := Pushed(s, Read64(m.mem, FREE_HEAD));
    CarriesFor(m, 4, k, e, v);
    var d: Machine :| LandsFor(m, 4, k, d, e, v);
    PoolAlike(e.mem, d.mem, [m.regs[2] as nat] + pages, next, v);
  }
}
