// One run from the boot code to a process's own address space: boot tables,
// whatever kernel code follows, build_tables, whatever follows that, and the
// switch.

module KernelPath {
  import opened Mik64Mmu
  import opened Mik64Tlb
  import opened Mik64Cpu
  import opened Mik64Bisim
  import opened FlatCode
  import opened IdentityMap
  import opened SupervisorCode
  import opened KernelCode
  import opened ProcessSpace
  import opened BuildTables
  import Boot = BootTables
  import Fault = PageFault
  import Retry = FaultRetry
  import Pool = PagePool

  /** A way through the kernel: n1 gentle steps to a call of build_tables at p for the pages t, and n2
      more from its return to the switch at r. */
  datatype Route = Route(n1: nat, s1: Machine, p: nat, t: Pages, n2: nat, s2: Machine, r: nat)

  /** build_tables has returned, on the flat machine. */
  function Returned(g: Route): Machine
    requires InRam(g.t)
  {
    After(g.s1, g.s1.regs[15], g.t.upage, g.t.pt4, g.t.upage + 7, Built(g.s1.mem, g.t))
  }

  /** build_tables is called on blank pages beside the kernel's tables, whose leaves are at pt. */
  ghost predicate Calls(g: Route, pt: nat, v: Env) {
    && Called(g.s1, g.p, g.t, v) && KernelPd(g.s1.mem, g.t.kpd, pt) && LeavesOff(pt, g.t)
    && Only(g.s1.mem, g.t.pml4, 0) && Only(g.s1.mem, g.t.pdpt, 0) && Only(g.s1.mem, g.t.pd, 0)
  }

  /** The new process is switched to: its slot names its PML4, and its tables stand as built. */
  ghost predicate Restores(g: Route, pt: nat, v: Env)
    requires InRam(g.t)
  {
    && g.s2.pc == g.r && Code(g.s2.mem, g.r, SwitchCode(), v)
    && Code(g.s2.mem, g.r, SwitchCode(), EnvOf(SpaceOf(g.t, pt), v.cached))
    && WordOk(g.s2.regs[15] + SLOT_PTBR, v) && Read64(g.s2.mem, g.s2.regs[15] + SLOT_PTBR) == g.t.pml4
    && AgreeAbove(Built(g.s1.mem, g.t), g.s2.mem, SpaceOf(g.t, pt))
  }

  ghost predicate Follows(s: Machine, g: Route, pt: nat, v: Env) {
    && Glides(s, g.n1, g.s1, v) && Calls(g, pt, v) && InRam(g.t) && Glides(Returned(g), g.n2, g.s2, v) && Restores(g, pt, v)
  }

  function Steps(g: Route): nat { g.n1 + 30 + g.n2 + 4 }

  /** In the new process's space, for the kernel and for its page faults. */
  ghost predicate InSpace(d: Machine, g: Route, pt: nat, cached: bool) {
    && d.pc == g.r + 32 && Kern(d, EnvOf(SpaceOf(g.t, pt), cached)) && Fault.On(d, SpaceOf(g.t, pt), cached)
  }

  lemma CallsFit(g: Route, pt: nat, v: Env)
    requires Calls(g, pt, v)
    ensures PagesOk(g.t, v) && Called(g.s1, g.p, g.t, v)
  {}

  /** The tables after build_tables, and after whatever leaves them alone. */
  lemma BuiltSpace(g: Route, pt: nat, v: Env)
    requires Calls(g, pt, v) && InRam(g.t) && Restores(g, pt, v)
    ensures Space(g.s2.mem, SpaceOf(g.t, pt)) && Holds(g.s2.mem, g.t.pd + 32, g.t.pt4 + 3)
  {
    hide Code, Read64, Space, Built, Alike, KernelPd, LeavesOff, Only, Scratch, BuildCode, SwitchCode, CodeApart, AgreeAbove, Holds, PagesOk;
    var built, t := Built(g.s1.mem, g.t), SpaceOf(g.t, pt);
    assert EnvOk(v) by { PagesEnv(g.t, v); }
    AlikeRefl(built, v);
    NewSpace(g.s1.mem, built, g.t, v, pt);
    SpaceKept(built, g.s2.mem, t);
    BuiltChain(g.s1.mem, built, g.t, v);
    LinkBuilt(built, g.t);
    AgreeAt(built, g.s2.mem, t, 4);
    HoldsAgree(built, g.s2.mem, g.t.pd + 32, g.t.pt4 + 3);
  }

  lemma PagesEnv(t: Pages, v: Env)
    requires PagesOk(t, v)
    ensures EnvOk(v) && t.pt4 + 4096 <= v.top
  {}

  lemma LinkBuilt(mem: Ram8, t: Pages)
    requires ProcessChain(mem, t.kpd, t.pml4, t.pdpt, t.pd, t.pt4, t.upage)
    ensures Holds(mem, t.pd + 32, t.pt4 + 3)
  {}

  /** Some run of n steps from m ends there. */
  ghost predicate Arrives(m: Machine, n: nat, g: Route, pt: nat, cached: bool) {
    exists d: Machine :: Leads(m, n, d, cached) && InSpace(d, g, pt, cached)
  }

  lemma RouteGlides(s: Machine, g: Route, pt: nat, v: Env)
    requires Flat(s) && Follows(s, g, pt, v)
    ensures Glides(s, g.n1 + 30 + g.n2, g.s2, v)
  {
    hide Glides, Called, InRam, Restores;
    assert Flat(g.s1) by { GlidesFlat(s, g.n1, g.s1, v); }
    BuildGlides(g.s1, g.p, g.t, v);
    GlidesThen(s, g.n1, g.s1, 30, Returned(g), v);
    GlidesThen(s, g.n1 + 30, Returned(g), g.n2, g.s2, v);
  }

  /** What the switch finds. */
  ghost predicate AtSwitch(m: Machine, g: Route, t: Tables, v: Env) {
    && Kern(m, v) && m.csrs[CSR_PMODE] != 0 && m.pc == g.r && Code(m.mem, g.r, SwitchCode(), v) && Code(m.mem, g.r, SwitchCode(), EnvOf(t, v.cached))
    && Space(m.mem, t) && Holds(m.mem, t.pd + 32, t.pt4 + 3)
    && WordOk(m.regs[15] + SLOT_PTBR, v) && Read64(m.mem, m.regs[15] + SLOT_PTBR) == t.pml4
  }

  lemma Found(m: Machine, g: Route, pt: nat, v: Env)
    requires Sim(m, g.s2, v) && m.csrs[CSR_PMODE] != 0 && Calls(g, pt, v) && InRam(g.t) && Restores(g, pt, v)
    ensures AtSwitch(m, g, SpaceOf(g.t, pt), v)
  {
    hide Calls, Code, Read64, Space, Alike, SwitchCode, AgreeAbove, Holds, EnvOf, Paged, SameTables, Built;
    var t := SpaceOf(g.t, pt);
    BuiltSpace(g, pt, v);
    AlikeTables(g.s2.mem, m.mem, v);
    SpaceAlike(g.s2.mem, m.mem, t);
    Retry.LinkKept(g.s2.mem, m.mem, t);
    CodeAlike(g.s2.mem, m.mem, g.r, SwitchCode(), v);
    CodeFits(g.s2.mem, m.mem, g.r, SwitchCode(), v, EnvOf(t, v.cached));
    WordKept(g.s2.mem, m.mem, g.s2.regs[15] + SLOT_PTBR, v);
  }

  lemma Switched(m: Machine, g: Route, pt: nat, v: Env) returns (d: Machine)
    requires AtSwitch(m, g, SpaceOf(g.t, pt), v) && g.t.pt4 + 4096 <= KERNEL_TOP
    ensures Leads(m, 4, d, v.cached) && InSpace(d, g, pt, v.cached)
  {
    hide Code, Read64, Space, SwitchCode, Holds, SameTables, EnvOf, Root, Kern, WordOk, Coherent, Run;
    var t := SpaceOf(g.t, pt);
    SwitchRuns(m, g.r, t, v);
    d :|
      && Leads(m, 4, d, v.cached) && Kern(d, EnvOf(t, v.cached)) && d.pc == g.r + 32 && d.regs == m.regs[1 := 1]
      && Root(d) == t.pml4 && d.csrs[CSR_PMODE] != 0 && Space(d.mem, t) && SameTables(m.mem, d.mem);
    Retry.LinkKept(m.mem, d.mem, t);
    if v.cached {
      KernCoherent(d, t);
    }
  }

  lemma KernCoherent(d: Machine, t: Tables)
    requires Kern(d, EnvOf(t, true)) && d.csrs[CSR_PMODE] != 0
    ensures Coherent(d)
  {
    hide Ident, TablesIn, Coherent;
  }

  lemma PoolBelow(g: Route, pt: nat, v: Env)
    requires Calls(g, pt, v) && v.top <= KERNEL_TOP
    ensures g.t.pt4 + 4096 <= KERNEL_TOP
  {}

  /** From a kernel state, along any such route, into the process's space. */
  lemma RouteEnds(m: Machine, g: Route, pt: nat, v: Env)
    requires Kern(m, v) && m.csrs[CSR_PMODE] != 0 && Follows(Shadow(m), g, pt, v)
    ensures Arrives(m, Steps(g), g, pt, v.cached)
  {
    hide Paged, Alike, Glides, Calls, Restores, Returned, InRam, AtSwitch, InSpace, Steps, Run;
    ShadowSims(m, v);
    RouteGlides(Shadow(m), g, pt, v);
    var n := g.n1 + 30 + g.n2;
    Carries(m, Shadow(m), n, g.s2, v);
    var m1: Machine :| Lands(m, n, m1, g.s2, v);
    Found(m1, g, pt, v);
    PoolBelow(g, pt, v);
    var d := Switched(m1, g, pt, v);
    LeadsThen(m, n, m1, 4, d, v.cached);
    StepsAre(g);
  }

  lemma StepsAre(g: Route)
    ensures Steps(g) == g.n1 + 30 + g.n2 + 4
  {}

  /** From the first instruction of the boot code: paging on after 12345 steps, and then, by whatever
      gentle route the kernel takes through build_tables and the switch, in the new process's space. */
  lemma BootReaches(m: Machine, s: nat, f: nat, b: nat, pt4: nat, cached: bool)
    requires Boot.Booting(m, s, f, b, s) && m.regs[2] == b && TablesOk(Boot.BootSpace(b, pt4))
    requires Only(m.mem, b, 0) && Only(m.mem, b + 0x1000, 0) && Only(m.mem, b + 0x2000, 0)
    ensures var v := EnvOf(Boot.BootSpace(b, pt4), cached);
      exists d0: Machine ::
        && Leads(m, 12345, d0, cached) && d0.pc == s + 360 && Kern(d0, v)
        && forall g: Route | Follows(Shadow(d0), g, b + 0x3000, v) :: Arrives(m, 12345 + Steps(g), g, b + 0x3000, cached)
  {
    hide Boot.Booting, Only, TablesOk, Kern, Follows, InSpace, Space, Steps, EnvOf, Run;
    var v := EnvOf(Boot.BootSpace(b, pt4), cached);
    Boot.KernelStarts(m, s, f, b, pt4, cached);
    var d0: Machine :|
      && Leads(m, 12345, d0, cached) && d0.pc == s + 360 && d0.csrs[CSR_PMODE] == 1 && d0.regs[6] == b + 0x2000
      && Space(d0.mem, Boot.BootSpace(b, pt4)) && Kern(d0, v);
    forall g: Route | Follows(Shadow(d0), g, b + 0x3000, v)
      ensures Arrives(m, 12345 + Steps(g), g, b + 0x3000, cached)
    {
      CachedIs(Boot.BootSpace(b, pt4), cached);
      RouteEnds(d0, g, b + 0x3000, v);
      var d: Machine :| Leads(d0, Steps(g), d, cached) && InSpace(d, g, b + 0x3000, cached);
      LeadsThen(m, 12345, d0, Steps(g), d, cached);
    }
  }

  lemma CachedIs(t: Tables, cached: bool)
    ensures EnvOf(t, cached).cached == cached
  {}
}
