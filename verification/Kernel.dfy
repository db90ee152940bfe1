// The process side of the x86-64 kernel: the process table, the system calls,
// the page-fault handler and the scheduler, driving RAM through PhysMem and
// the processor state (registers, CR3, TLB) it shares with ring 3.

module KernelCore {
  import opened Options
  import opened PageTables
  import opened PhysMemory
  import opened RoundRobin
  import opened Input
  import opened KernelSpec
  import opened KernelRuns
  import opened ProcessView
  import opened HardwareWalk

  /** Slot states of the process table. */
  function TableStates(procs: seq<Proc>): seq<PState> {
    seq(|procs|, s requires 0 <= s < |procs| => procs[s].state)
  }

  predicate SomeReady(procs: seq<Proc>) { exists s | 0 <= s < |procs| :: procs[s].state == READY }

  predicate SomeWaiting(procs: seq<Proc>) { exists s | 0 <= s < |procs| :: procs[s].state == WAITING }

  /** n frames may be needed for event e: one for a page fault, six for an exec, four and one for
      each present directory entry for a fork, none otherwise. */
  predicate MayNeed(s: Sys, progC: seq<Word>, e: Event, n: nat)
    requires SysOk(s)
  {
    if s.idle then n == 0
    else match e
      case Load(_) => n == 1
      case Store(_, _) => n == 1
      case Trap(reply) =>
        if ExecImageOf(Me(s).regs[RAX], progC, reply).Some? then n == 6
        else if Me(s).regs[RAX] == 4 && FirstEmpty(s.procs, 0).Some? then 4 <= n <= 4 + WORDS_PER_PAGE
        else n == 0
      case _ => n == 0
  }

  class Kernel {
    const m: PhysMem
    const input: InputRing
    const progC: seq<Word>  // the embedded image exec runs

    var procs: seq<Proc>
    var cur: nat
    var inIdle: bool
    var halted: bool

    // The processor.
    var regs: Regs
    var cr3: Word
    var tlb: map<nat, TlbEntry>

    // Bytes the devices got into the queue, and bytes sys_read handed out, so far.
    ghost var accepted: seq<Byte>
    ghost var delivered: seq<Byte>

    ghost predicate Inv()
      reads this, m, input, input.buf
    {
      && m.Valid() && input.Valid() && |progC| <= WORDS_PER_PAGE
      && ProcsOk(m.mem, m.led, procs) && cur < NPROC
      && accepted == delivered + input.Contents()
      && (SomeWaiting(procs) ==> input.Contents() == [])
    }

    /** The processor translates for the current process, and its TLB agrees with the tables. */
    ghost predicate CpuOk()
      reads this, m
    {
      && cur < |procs| && cr3 == procs[cur].pml4 && TlbOk(m.mem, FrameOf(cr3), tlb)
    }

    /** A handler is running for the live current process, whose frame is f. */
    ghost predicate InKernel(f: Word)
      reads this, m, input, input.buf
    {
      Inv() && !halted && !inIdle && procs[cur].state == READY && f == procs[cur].frame && CpuOk()
    }

    /** Ring 3 is running the current process. */
    ghost predicate InUser()
      reads this, m, input, input.buf
    {
      Inv() && !halted && !inIdle && procs[cur].state == READY && CpuOk()
    }

    /** Parked in the idle loop: somebody waits and nobody can run. */
    ghost predicate Parked()
      reads this, m, input, input.buf
    {
      Inv() && !halted && inIdle && SomeWaiting(procs) && forall s | 0 <= s < NPROC :: procs[s].state != READY
    }

    /** The abstract system as the kernel sees it: all registers saved. */
    ghost function Saved(): Sys
      requires input.Valid()
      reads this, m, input, input.buf
    {
      Sys(AbsProcs(m.mem, procs), cur, inIdle, input.Contents(), accepted, delivered)
    }

    /** The abstract system while ring 3 runs: the current registers are the processor's. */
    ghost function Live(): Sys
      requires input.Valid()
      reads this, m, input, input.buf
    {
      if cur < |procs| then
        Saved().(procs := AbsProcs(m.mem, procs)[cur := AbsProc(m.mem, procs[cur]).(regs := regs)])
      else Saved()
    }

    /** After memory is seeded: an empty process table and an empty input queue. */
    constructor (memory: PhysMem, ring: InputRing, image: seq<Word>)
      requires memory.Valid() && ring.Valid() && ring.Contents() == [] && |image| <= WORDS_PER_PAGE
      ensures Inv() && m == memory && input == ring && progC == image && !halted && !inIdle
      ensures forall s | 0 <= s < NPROC :: procs[s].state == EMPTY
    {
      m, input, progC := memory, ring, image;
      var none := Proc(0, 0, 0, EMPTY, 0);
      procs := [none, none, none, none];
      cur, inIdle, halted := 0, false, false;
      regs, cr3, tlb := ZERO_REGS, 0, map[];
      accepted, delivered := [], [];
    }

    /** isr_*: the processor and SAVE_REGS push the registers onto the kernel stack. */
    method EnterKernel() returns (f: Word)
      requires InUser()
      modifies m
      ensures InKernel(f) && Saved() == old(Live())
      ensures m.led == old(m.led) && m.freeHead == old(m.freeHead) && LeavesKept(old(m.mem), m.mem, m.led.spaces)
      ensures forall r | r in m.led.spaces :: TablesKept(old(m.mem), m.mem, r)
    {
      hide MemOk, View, Leaf, MappedOk, KStackOk;
      f := procs[cur].frame;
      SaveKeeps(m.mem, m.freeHead, m.kpd, m.led, procs, cur, regs);
      m.mem := m.mem[FrameOf(f) := WithFrame(m.mem[FrameOf(f)], regs)];
      TlbFrame(old(m.mem), m.mem, m.led.spaces, FrameOf(cr3), tlb);
    }

    /** irq_tail: pop the registers of the returned frame and leave for ring 3. */
    method LeaveKernel(f: Word)
      requires InKernel(f)
      modifies this`regs
      ensures InUser() && Live() == old(Saved())
    {
      hide MemOk, View, Leaf, MappedOk, KStackOk;
      regs := FrameAt(m.mem, f);
      assert Live().procs == Saved().procs;
    }

    // ---- Scheduling -----------------------------------------------------------

    /** A handler may give up the processor: frame f is where a live current process resumes. */
    ghost predicate MaySwitch(f: Word)
      reads this, m, input, input.buf
    {
      Inv() && !halted && !inIdle && (procs[cur].state != EMPTY ==> f == procs[cur].frame)
    }

    /** Make slot n current: its address space goes into CR3, which empties the TLB. */
    method SwitchTo(n: nat) returns (f: Word)
      requires Inv() && !halted && n < NPROC && procs[n].state == READY
      modifies this`cur, this`cr3, this`tlb, this`inIdle
      ensures InKernel(f) && Saved() == old(Saved()).(cur := n, idle := false)
    {
      hide MemOk, View, FrameAt, ProcOk, AbsProc;
      inIdle := false;
      cur := n;
      cr3, tlb := procs[n].pml4, map[];
      f := procs[n].frame;
    }

    /** The handler ended as the abstract step says: resume frame g, park, or halt. */
    ghost predicate Resumes(o: Outcome, g: Option<Word>)
      reads this, m, input, input.buf
    {
      match o
      case Go(s) =>
        && !halted && input.Valid() && Saved() == s
        && if s.idle then g == None && Parked() else g.Some? && InKernel(g.value)
      case Stop => halted
    }

    /** The first store of schedule: remember where the current process resumes. */
    method SaveFrame(frame: Word)
      requires MaySwitch(frame)
      modifies this`procs
      ensures MaySwitch(frame) && Saved() == old(Saved())
    {
      hide MemOk, View, FrameAt, ProcOk;
      KeepFrame(m.mem, m.led, procs, cur, frame);
      procs := procs[cur := procs[cur].(frame := frame)];
    }

    /** The scan of schedule: the nearest READY slot ahead of the current one, which comes last. */
    method NextReady() returns (n: Option<nat>)
      requires |procs| == NPROC && cur < NPROC
      ensures n == Pick(TableStates(procs), cur)
      ensures n.Some? ==> n.value < NPROC && procs[n.value].state == READY
    {
      for off := 1 to NPROC + 1
        invariant PickFrom(TableStates(procs), cur, off) == Pick(TableStates(procs), cur)
      {
        var next := (cur + off) % NPROC;
        if procs[next].state == READY {
          return Some(next);
        }
      }
      n := None;
    }

    /** schedule: None means no frame is resumed (parked, or everything is dead). */
    method Schedule(frame: Word) returns (f: Option<Word>)
      requires MaySwitch(frame)
      modifies this`procs, this`cur, this`cr3, this`tlb, this`inIdle, this`halted
      ensures Resumes(SSwitch(old(Saved())), f)
    {
      hide MemOk, ProcsOk, AbsProcs, TlbOk, PickFrom, SomeWaiting;
      SaveFrame(frame);
      ProcsShape(m.mem, m.led, procs);
      StatesMatch(m.mem, procs);
      var next := NextReady();
      if next.Some? {
        var g := SwitchTo(next.value);
        return Some(g);
      }
      PickNearest(TableStates(procs), cur);
      assert forall s | 0 <= s < NPROC :: procs[s].state == TableStates(procs)[s] != READY;
      var waiting := SomeWaiting(procs);
      if procs[cur].state != READY && waiting {
        inIdle := true;
        return None;
      }
      if procs[cur].state != READY {
        halted := true;
        return None;
      }
      assert false;
    }

    /** The idle loop after an interrupt: resume the lowest READY slot, or stay parked. */
    method Unpark() returns (f: Option<Word>)
      requires Inv() && !halted && inIdle && (Parked() || exists s | 0 <= s < NPROC :: procs[s].state == READY)
      modifies this`cur, this`cr3, this`tlb, this`inIdle
      ensures Saved() == SUnpark(old(Saved()))
      ensures if f.Some? then InKernel(f.value) else Parked()
    {
      hide MemOk, View, Leaf, ProcOk, FrameAt, TlbOk;
      StatesMatch(m.mem, procs);
      for i := 0 to NPROC
        invariant FirstReady(TableStates(procs), i) == FirstReady(TableStates(procs), 0)
        invariant forall k | 0 <= k < i :: procs[k].state != READY
      {
        if procs[i].state == READY {
          var g := SwitchTo(i);
          return Some(g);
        }
      }
      return None;
    }

    /** wake_on_input: every blocked reader becomes runnable. */
    method WakeOnInput()
      requires |procs| == NPROC
      modifies this`procs
      ensures |procs| == NPROC
      ensures forall s | 0 <= s < NPROC ::
                procs[s] == if old(procs)[s].state == WAITING then old(procs)[s].(state := READY) else old(procs)[s]
    {
      for i := 0 to NPROC
        invariant |procs| == NPROC
        invariant forall s | 0 <= s < NPROC ::
                    procs[s] == if s < i && old(procs)[s].state == WAITING then old(procs)[s].(state := READY) else old(procs)[s]
      {
        if procs[i].state == WAITING {
          procs := procs[i := procs[i].(state := READY)];
        }
      }
    }

    /** A device interrupt's work on one byte: push, then wake. */
    method PushAndWake(b: Byte)
      requires Inv()
      modifies this`procs, this`accepted, input, input.buf
      ensures Inv() && Saved() == SInput(old(Saved()), b) && !SomeWaiting(procs)
      ensures forall s | 0 <= s < NPROC ::
                procs[s] == if old(procs)[s].state == WAITING then old(procs)[s].(state := READY) else old(procs)[s]
    {
      hide MemOk, ProcsOk, AbsProcs, SomeWaiting;
      ProcsShape(m.mem, m.led, procs);
      ghost var q, before := input.Contents(), procs;
      input.Push(b);
      if |q| < CAP {
        accepted := accepted + [b];
      }
      WakeOnInput();
      WakeKeeps(m.mem, m.led, before, procs);
    }

    // ---- System calls -----------------------------------------------------------

    /** Read a saved register through the frame pointer. */
    method GetReg(f: Word, k: nat) returns (w: Word)
      requires InKernel(f) && k < FRAME_WORDS
      ensures w == Me(Saved()).regs[k]
    {
      hide MemOk, View, Leaf, MappedOk;
      FramePointer(m.led.own, procs[cur], cur);
      MemSize(m.mem, m.freeHead, m.kpd, m.led);
      w := At(m.mem, FrameOf(f), FRAME_WORD + k);
    }

    /** Write a saved register through the frame pointer. */
    method SetReg(f: Word, k: nat, w: Word)
      requires InKernel(f) && k < FRAME_WORDS
      modifies m
      ensures InKernel(f) && Saved() == WithReg(old(Saved()), k, w)
      ensures m.led == old(m.led) && m.freeHead == old(m.freeHead) && LeavesKept(old(m.mem), m.mem, m.led.spaces)
    {
      hide MemOk, View, Leaf, MappedOk, KStackOk;
      ghost var regs' := FrameAt(m.mem, f)[k := w];
      SaveKeeps(m.mem, m.freeHead, m.kpd, m.led, procs, cur, regs');
      assert WithFrame(m.mem[FrameOf(f)], regs') == m.mem[FrameOf(f)][FRAME_WORD + k := w];
      m.mem := Put(m.mem, FrameOf(f), FRAME_WORD + k, w);
      TlbFrame(old(m.mem), m.mem, m.led.spaces, FrameOf(cr3), tlb);
    }

    /** Syscall 2, exit: free the slot outright and switch away. */
    method SysExit(f: Word) returns (g: Option<Word>)
      requires InKernel(f)
      modifies this`procs, this`cur, this`cr3, this`tlb, this`inIdle, this`halted
      ensures Resumes(SExit(old(Saved())), g)
    {
      hide MemOk, AbsProcs, ProcsOk, View;
      ProcsShape(m.mem, m.led, procs);
      RetireKeeps(m.mem, m.led, procs, cur);
      procs := procs[cur := procs[cur].(state := EMPTY)];
      g := Schedule(f);
    }

    /** Syscall 3, yield; also what a timer tick does. */
    method SysYield(f: Word) returns (g: Option<Word>)
      requires InKernel(f)
      modifies this`procs, this`cur, this`cr3, this`tlb, this`inIdle, this`halted
      ensures Resumes(SSwitch(old(Saved())), g)
    {
      g := Schedule(f);
    }

    /** Syscall 7, read: a byte, or block with rip rewound over the two-byte trap. */
    method SysRead(f: Word) returns (g: Option<Word>)
      requires InKernel(f)
      modifies this`procs, this`cur, this`cr3, this`tlb, this`inIdle, this`halted, this`delivered, m, input
      ensures Resumes(SRead(old(Saved())), g)
      ensures m.led == old(m.led)
    {
      hide MemOk, AbsProcs, ProcsOk, View, TlbOk, SSwitch;
      ProcsShape(m.mem, m.led, procs);
      ghost var q := input.Contents();
      var b := input.Pop();
      if b.Some? {
        delivered := delivered + [b.value];
        assert q == [q[0]] + q[1..];
        SetReg(f, RAX, b.value as int);
        return Some(f);
      }
      g := BlockOnInput(f);
    }

    /** The empty-queue arm of read. */
    method BlockOnInput(f: Word) returns (g: Option<Word>)
      requires InKernel(f) && input.Contents() == []
      modifies this`procs, this`cur, this`cr3, this`tlb, this`inIdle, this`halted, m
      ensures Resumes(SRead(old(Saved())), g)
      ensures m.led == old(m.led)
    {
      hide MemOk, AbsProcs, ProcsOk, View, TlbOk, SSwitch;
      ProcsShape(m.mem, m.led, procs);
      var rip := GetReg(f, RIP);
      if rip < 2 {
        halted := true;
        return None;
      }
      ghost var s := Saved();
      SetReg(f, RIP, rip - 2);
      ProcsShape(m.mem, m.led, procs);
      SlotFacts(m.mem, m.led, procs, cur);
      BlockKeeps(m.mem, m.led, procs, cur);
      procs := procs[cur := procs[cur].(state := WAITING)];
      assert Saved() == WithMe(s, Me(s).(state := WAITING, regs := Me(s).regs[RIP := rip - 2]));
      g := Schedule(f);
    }

    /** Syscall 6, sbrk: move the break; no page is mapped yet. */
    method SysSbrk(f: Word) returns (ok: bool)
      requires InKernel(f)
      modifies this`procs, this`halted, m
      ensures Resumes(SSbrk(old(Saved())), if ok then Some(f) else None)
      ensures m.led == old(m.led)
    {
      hide MemOk, AbsProcs, ProcsOk, View, TlbOk;
      ProcsShape(m.mem, m.led, procs);
      SlotFacts(m.mem, m.led, procs, cur);
      var rdi := GetReg(f, RDI);
      if rdi + 0xFFF >= WORD_LIMIT {
        halted := true;
        return false;
      }
      var inc := (rdi + 0xFFF) / PAGE_SIZE * PAGE_SIZE;
      var brk := procs[cur].brk;
      if brk + inc >= WORD_LIMIT {
        halted := true;
        return false;
      }
      ghost var s := Saved();
      SetReg(f, RAX, brk);
      ProcsShape(m.mem, m.led, procs);
      SlotFacts(m.mem, m.led, procs, cur);
      if brk + inc <= BRK_MAX {
        GrowKeeps(m.mem, m.led, procs, cur, inc);
        procs := procs[cur := procs[cur].(brk := brk + inc)];
        assert Saved() == WithMe(s, SProc(Me(s).state, Me(s).pages + ZeroPages(inc / PAGE_SIZE), Me(s).regs[RAX := brk]));
      }
      ok := true;
    }

    // ---- Creating processes -----------------------------------------------------

    /** Take a frame, copy `image` to its front and map it at va; the rest of the page is
        whatever the frame held.  False is the out-of-frames panic. */
    method AddPage(p4: Word, va: Word, image: seq<Word>) returns (ok: bool)
      requires m.Valid() && p4 % PAGE_SIZE == 0 && FrameOf(p4) in m.led.spaces && InUserRegion(va)
      requires |image| <= WORDS_PER_PAGE
      modifies m
      ensures ok <==> |old(m.led).stack| >= 1 + MissingTables(old(m.mem), FrameOf(p4), Index(va, 1))
      ensures ok ==>
                && var r, i, j := FrameOf(p4), Index(va, 1), Index(va, 0);
                && var w := Leaf(m.mem, r, i, j);
                && m.Valid() && m.led.spaces == old(m.led).spaces
                && m.led.stack == old(m.led).stack[..|old(m.led).stack| - 1 - MissingTables(old(m.mem), r, i)]
                && DataKept(old(m.mem), old(m.led).own, m.mem, m.led.own)
                && LeafSet(old(m.mem), m.mem, m.led.spaces, r, i, j, w) && Present(w)
                && StartsWith(PageOfLeaf(m.mem, w), image) && MissingTables(m.mem, r, i) == 0
    {
      hide MemOk, Leaf, PdSlot, Pde, PdptFrame, Index;
      MemSize(m.mem, m.freeHead, m.kpd, m.led);
      var f := m.AllocFrame();
      if f.None? { return false; }
      MemSize(m.mem, m.freeHead, m.kpd, m.led);
      ghost var mem1 := m.mem;
      m.WritePage(FrameOf(f.value), image + m.mem[FrameOf(f.value)][|image|..]);
      ghost var mem2 := m.mem;
      assert TablesKept(mem1, mem2, FrameOf(p4));
      ok := m.Map4k(p4, va, f.value, PTE_P + PTE_W + PTE_U);
      if ok {
        PageFlags(f.value);
        assert LeavesKept(mem1, mem2, m.led.spaces);
        MemSize(m.mem, m.freeHead, m.kpd, m.led);
      }
    }

    /** The fresh address space spawn and exec_image build: a code page and a stack page. */
    method BuildImage(code: seq<Word>) returns (p4: Option<Word>)
      requires m.Valid() && |code| <= WORDS_PER_PAGE
      modifies m
      ensures p4.None? <==> |old(m.led).stack| < 6
      ensures p4.Some? ==>
                && var r := FrameOf(p4.value);
                && p4.value == r * PAGE_SIZE && m.Valid()
                && r !in old(m.led).spaces && m.led.spaces == old(m.led).spaces + {r}
                && m.led.stack == old(m.led).stack[..|old(m.led).stack| - 6]
                && DataKept(old(m.mem), old(m.led).own, m.mem, m.led.own)
                && LeavesKept(old(m.mem), m.mem, old(m.led).spaces)
                && MappedOk(m.mem, r, 2) && StartsWith(PageOfLeaf(m.mem, Leaf(m.mem, r, 0, 0)), code)
    {
      hide MemOk, Leaf, PdSlot, Pde, PdptFrame, MissingTables, Present, FrameOf;
      p4 := m.BuildUserTable();
      if p4.None? { return; }
      ghost var r, mem1 := FrameOf(p4.value), m.mem;
      EmptySpace(m.mem, r);
      ZeroAbsent();
      assert Index(USER_CODE_VA, 1) == Index(USER_CODE_VA, 0) == Index(USER_STACK_VA, 1) == 0 && Index(USER_STACK_VA, 0) == 1;
      var ok := AddPage(p4.value, USER_CODE_VA, code);
      if !ok { return None; }
      ghost var mem2, own2, w := m.mem, m.led.own, Leaf(m.mem, r, 0, 0);
      MemSize(m.mem, m.freeHead, m.kpd, m.led);
      LeafFacts(m.mem, m.freeHead, m.kpd, m.led, r, 0, 0);
      ok := AddPage(p4.value, USER_STACK_VA, []);
      if !ok { return None; }
      assert m.mem[FrameOf(w)] == mem2[FrameOf(w)];
    }

    /** A kernel stack with a saved frame at its top. */
    method NewKStack(slot: nat, saved: Regs) returns (ktop: Option<Word>)
      requires m.Valid()
      modifies m
      ensures ktop.None? <==> old(m.led).stack == []
      ensures ktop.Some? ==>
                && m.Valid() && m.led.spaces == old(m.led).spaces
                && m.led.stack == old(m.led).stack[..|old(m.led).stack| - 1]
                && DataKept(old(m.mem), old(m.led).own, m.mem, m.led.own)
                && LeavesKept(old(m.mem), m.mem, m.led.spaces)
                && ktop.value % PAGE_SIZE == 0 && ktop.value >= PAGE_SIZE
                && HasRole(m.led.own, FrameOf(ktop.value) - 1, KStack(slot))
                && FrameAt(m.mem, ktop.value - FRAME_BYTES) == saved
    {
      hide MemOk, Leaf, PdSlot, Pde, PdptFrame;
      MemSize(m.mem, m.freeHead, m.kpd, m.led);
      var f := m.AllocFrame();
      if f.None? { return None; }
      MemSize(m.mem, m.freeHead, m.kpd, m.led);
      var k := FrameOf(f.value);
      m.WritePage(k, WithFrame(m.mem[k], saved));
      RelabelKeeps(m.mem, m.freeHead, m.kpd, m.led, k, KStack(slot));
      m.led := m.led.(own := m.led.own[k := KStack(slot)]);
      ktop := Some(f.value + PAGE_SIZE);
      assert FrameOf(f.value + PAGE_SIZE) == k + 1 && FrameOf(f.value + PAGE_SIZE - FRAME_BYTES) == k;
    }

    /** The scan both fork and spawn start with. */
    method FindEmpty() returns (i: Option<nat>)
      requires |procs| == NPROC
      ensures i == FirstEmpty(AbsProcs(m.mem, procs), 0)
      ensures i.Some? ==> i.value < NPROC && procs[i.value].state == EMPTY
    {
      hide View, FrameAt;
      ghost var a := AbsProcs(m.mem, procs);
      for k := 0 to NPROC
        invariant FirstEmpty(a, k) == FirstEmpty(a, 0)
      {
        assert a[k].state == procs[k].state;
        if procs[k].state == EMPTY {
          return Some(k);
        }
      }
      i := None;
    }

    /** spawn: a process at the entry of `code` in the first empty slot.  False is a panic. */
    method Spawn(code: seq<Word>) returns (ok: bool)
      requires Inv() && !halted && |code| <= WORDS_PER_PAGE
      modifies this`procs, m
      ensures ok <==> FirstEmpty(old(Saved()).procs, 0).Some? && |old(m.led).stack| >= 7
      ensures ok ==> SomeReady(procs)
      ensures ok ==>
                && Inv() && |m.led.stack| == |old(m.led).stack| - 7
                && var i := FirstEmpty(old(Saved()).procs, 0).value;
                && i < NPROC && SysOk(old(Saved())) && SysOk(Saved())
                && |Saved().procs[i].pages| == 2 && StartsWith(Saved().procs[i].pages[0], code)
                && Saved() == old(Saved()).(procs := old(Saved()).procs[i := SProc(READY, Saved().procs[i].pages, ENTRY_REGS)])
    {
      hide MemOk, AbsProcs, ProcsOk, View, TlbOk, Leaf, MappedOk;
      ProcsShape(m.mem, m.led, procs);
      var i := FindEmpty();
      if i.None? { return false; }
      var p4 := BuildImage(code);
      if p4.None? { return false; }
      AllKept(old(m.mem), old(m.freeHead), m.kpd, old(m.led), m.mem, m.led, procs);
      ghost var mem1, led1, head1 := m.mem, m.led, m.freeHead;
      var ktop := NewKStack(i.value, ENTRY_REGS);
      if ktop.None? { return false; }
      AllKept(mem1, head1, m.kpd, led1, m.mem, m.led, procs);
      ghost var r := FrameOf(p4.value);
      ImageView(mem1, head1, m.kpd, led1, m.mem, r, code);
      RootsListed(old(m.mem), old(m.led), procs, r);
      var p := Proc(p4.value, ktop.value, ktop.value - FRAME_BYTES, READY, USER_DATA_VA);
      InstallProc(m.mem, m.led, procs, i.value, p);
      procs := procs[i.value := p];
      assert SomeReady(procs) by { assert procs[i.value].state == READY; }
      ok := true;
    }

    /** Frames fork takes: three upper tables, one page table per present directory entry, a kernel stack. */
    ghost function ForkFrames(): nat
      requires Inv()
      reads this, m, input, input.buf
    {
      4 + PresentPdes(m.mem, FrameOf(procs[cur].pml4), WORDS_PER_PAGE)
    }

    /** p is a copy of the parent, runnable in that slot, with 0 in rax and a table of its own. */
    ghost predicate ChildReady(p: Proc, slot: nat, parent: SProc)
      reads this, m, input, input.buf
    {
      && Inv() && slot < NPROC && ProcOk(m.mem, m.led, p, slot)
      && AbsProc(m.mem, p) == SProc(READY, parent.pages, parent.regs[RAX := 0])
      && forall s | 0 <= s < NPROC && procs[s].state != EMPTY :: procs[s].pml4 != p.pml4
    }

    /** fork's new process: a cloned table and a copy of the live frame with rax = 0. */
    method MakeChild(f: Word, slot: nat) returns (p: Option<Proc>)
      requires InKernel(f) && slot < NPROC && procs[slot].state == EMPTY
      modifies m
      ensures p.None? <==> |old(m.led).stack| < old(ForkFrames())
      ensures p.Some? ==>
                && ChildReady(p.value, slot, old(Me(Saved()))) && Saved() == old(Saved())
                && |m.led.stack| == |old(m.led).stack| - old(ForkFrames())
    {
      hide MemOk, AbsProcs, ProcsOk, View, TlbOk, Leaf, MappedOk, FrameAt, PresentPdes;
      UserDirectory(m.mem, m.freeHead, m.kpd, m.led, procs, cur);
      ghost var mem0, led0, head0 := m.mem, m.led, m.freeHead;
      var child := m.CloneUserTable(procs[cur].pml4);
      if child.None? { return None; }
      ghost var c, n := FrameOf(child.value), NPages(procs[cur].brk);
      CloneView(mem0, head0, m.kpd, led0, m.mem, m.led, procs, cur, c);
      RootsListed(mem0, led0, procs, c);
      ghost var mem1, led1, head1 := m.mem, m.led, m.freeHead;
      var ktop := NewKStack(slot, FrameAt(m.mem, f)[RAX := 0]);
      if ktop.None? { return None; }
      AllKept(mem1, head1, m.kpd, led1, m.mem, m.led, procs);
      SlotOk(m.mem, m.led, procs, cur);
      SavedFrame(mem0, led0, procs, cur);
      SavedFrame(mem1, led1, procs, cur);
      ProcsShape(m.mem, m.led, procs);
      NPagesBound(procs[cur].brk);
      KeptView(mem1, head1, m.kpd, led1, m.mem, m.led, c, n);
      p := Some(Proc(child.value, ktop.value, ktop.value - FRAME_BYTES, READY, procs[cur].brk));
    }

    /** Syscall 4, fork: shared read-only pages, a copied frame, and the parent's TLB flushed.
        False is the out-of-frames panic. */
    method SysFork(f: Word) returns (ok: bool)
      requires InKernel(f)
      modifies this`procs, this`cr3, this`tlb, m
      ensures ok ==> InKernel(f) && Saved() == SFork(old(Saved()))
      ensures !ok <==> FirstEmpty(old(Saved()).procs, 0).Some? && |old(m.led).stack| < old(ForkFrames())
      ensures ok ==> |m.led.stack| == |old(m.led).stack| - if FirstEmpty(old(Saved()).procs, 0).Some? then old(ForkFrames()) else 0
    {
      hide MemOk, AbsProcs, ProcsOk, View, TlbOk, ProcOk, AbsProc, PresentPdes;
      ProcsShape(m.mem, m.led, procs);
      var i := FindEmpty();
      if i.None? {
        SetReg(f, RAX, MINUS_ONE);
        return true;
      }
      var p := MakeChild(f, i.value);
      if p.None? { return false; }
      AbsReady(m.mem, p.value);
      InstallProc(m.mem, m.led, procs, i.value, p.value);
      NotWaiting(procs, i.value, p.value);
      procs := procs[i.value := p.value];
      cr3, tlb := procs[cur].pml4, map[];
      TlbEmpty(m.mem, FrameOf(cr3));
      SetReg(f, RAX, 1);
      ok := true;
    }

    /** exec_image: swap in a fresh address space, rewrite the frame in place, reload CR3.
        False is the out-of-frames panic. */
    method ExecImage(image: seq<Word>, f: Word) returns (ok: bool)
      requires InKernel(f) && |image| <= WORDS_PER_PAGE
      modifies this`procs, this`cr3, this`tlb, m
      ensures ok <==> |old(m.led).stack| >= 6
      ensures ok ==> InKernel(f) && SExec(old(Saved()), image, Saved()) && |m.led.stack| == |old(m.led).stack| - 6
    {
      hide MemOk, AbsProcs, ProcsOk, View, TlbOk, Leaf, MappedOk, FrameAt;
      ghost var s0, mem0, led0, head0 := Saved(), m.mem, m.led, m.freeHead;
      ProcsShape(m.mem, m.led, procs);
      var pml4 := BuildImage(image);
      if pml4.None? { return false; }
      ghost var r := FrameOf(pml4.value);
      AllKept(mem0, head0, m.kpd, led0, m.mem, m.led, procs);
      RootsListed(mem0, led0, procs, r);
      ImageView(m.mem, m.freeHead, m.kpd, m.led, m.mem, r, image);
      SwapSpace(m.mem, m.led, procs, cur, pml4.value);
      procs := procs[cur := procs[cur].(pml4 := pml4.value, brk := USER_DATA_VA)];
      cr3, tlb := pml4.value, map[];
      ProcsShape(m.mem, m.led, procs);
      SaveKeeps(m.mem, m.freeHead, m.kpd, m.led, procs, cur, ENTRY_REGS);
      SavedFrame(m.mem, m.led, procs, cur);
      m.mem := m.mem[FrameOf(f) := WithFrame(m.mem[FrameOf(f)], ENTRY_REGS)];
      TlbEmpty(m.mem, r);
      ok := true;
    }

    // ---- Page faults ------------------------------------------------------------

    /** The demand arm: a zeroed frame for an untouched heap page. */
    method DemandPage(f: Word, cr2: Word) returns (ok: bool)
      requires InKernel(f) && USER_DATA_VA <= cr2 < procs[cur].brk
      requires !Present(Leaf(m.mem, FrameOf(cr3), Index(cr2, 1), Index(cr2, 0)))
      modifies this`tlb, m
      ensures ok <==> old(m.led).stack != []
      ensures ok ==>
                && InKernel(f) && Saved() == old(Saved()) && |m.led.stack| == |old(m.led).stack| - 1
                && var w := Leaf(m.mem, FrameOf(cr3), Index(cr2, 1), Index(cr2, 0)); Present(w) && Writable(w)
    {
      hide MemOk, AbsProcs, ProcsOk, View, TlbOk, Leaf, MappedOk, FrameAt, Index, PdSlot, Pde, PdptFrame;
      ghost var mem0, led0, head0 := m.mem, m.led, m.freeHead;
      ghost var r := FrameOf(procs[cur].pml4);
      MemSize(m.mem, m.freeHead, m.kpd, m.led);
      ProcsShape(m.mem, m.led, procs);
      SlotOk(m.mem, m.led, procs, cur);
      UserPage(m.mem, m.freeHead, m.kpd, m.led, procs, cur, cr2);
      var fr := m.AllocZeroed();
      if fr.None? { return false; }
      ghost var mem1 := m.mem;
      assert TablesKept(mem0, mem1, r);
      var page := cr2 / PAGE_SIZE * PAGE_SIZE;
      PageBase(cr2);
      MemSize(m.mem, m.freeHead, m.kpd, m.led);
      PageFlags(fr.value);
      ok := m.Map4k(procs[cur].pml4, page, fr.value, PTE_P + PTE_W + PTE_U);
      if !ok { return; }
      MemSize(m.mem, m.freeHead, m.kpd, m.led);
      assert LeavesKept(mem0, mem1, m.led.spaces);
      RemapKeeps(mem0, head0, m.kpd, led0, m.mem, m.led, procs, cur, Index(cr2, 0), fr.value + 7);
      TlbAfterSet(mem0, m.mem, m.led.spaces, r, cr2, fr.value + 7, tlb);
      tlb := tlb - {Vpn(cr2)};
    }

    /** The copy-on-write arm: a private writable copy of a shared page. */
    method CopyPage(f: Word, cr2: Word, pte: Slot) returns (ok: bool)
      requires InKernel(f) && InUserRegion(cr2)
      requires var r, i, j := FrameOf(cr3), Index(cr2, 1), Index(cr2, 0);
        && Present(Pde(m.mem, r, i)) && pte == Slot(FrameOf(Pde(m.mem, r, i)), j)
        && Present(Leaf(m.mem, r, i, j)) && User(Leaf(m.mem, r, i, j)) && !Writable(Leaf(m.mem, r, i, j))
      modifies this`tlb, m
      ensures ok <==> old(m.led).stack != []
      ensures ok ==>
                && InKernel(f) && Saved() == old(Saved()) && |m.led.stack| == |old(m.led).stack| - 1
                && var w := Leaf(m.mem, FrameOf(cr3), Index(cr2, 1), Index(cr2, 0)); Present(w) && Writable(w)
    {
      hide MemOk, AbsProcs, ProcsOk, View, TlbOk, MappedOk, FrameAt, Index, PdSlot, Pde, PdptFrame;
      hide Present, Writable, User, ProcOk, LeafSet, DataKept;
      ghost var mem0, led0, head0 := m.mem, m.led, m.freeHead;
      ghost var r, i, j := FrameOf(procs[cur].pml4), Index(cr2, 1), Index(cr2, 0);
      MemSize(m.mem, m.freeHead, m.kpd, m.led);
      ProcsShape(m.mem, m.led, procs);
      RootListed(m.mem, m.led, procs, cur);
      LeafInView(m.mem, r, NPages(procs[cur].brk), i, j);
      ghost var w;
      ok, w := m.CopyLeaf(r, i, pte);
      if !ok { return; }
      RemapKeeps(mem0, head0, m.kpd, led0, m.mem, m.led, procs, cur, j, w);
      TlbAfterSet(mem0, m.mem, m.led.spaces, r, cr2, w, tlb);
      LeafIs(mem0, m.mem, m.led.spaces, r, i, j, w);
      tlb := tlb - {Vpn(cr2)};
    }

    /** pf_handler: demand paging, copy-on-write, or the halting report.  The error code is the
        one the hardware produced for this access. */
    method PfHandler(f: Word, cr2: Word, err: nat) returns (ok: bool)
      requires InKernel(f) && Canonical(cr2)
      requires Check(HwWalk(m.mem, FrameOf(cr3), cr2), err / 2 % 2 == 1) == Fault(err)
      modifies this`tlb, this`halted, m
      ensures ok <==> Mapped(Me(old(Saved())), cr2) && old(m.led).stack != []
      ensures !ok ==> halted
      ensures ok ==>
                && InKernel(f) && Saved() == old(Saved()) && |m.led.stack| == |old(m.led).stack| - 1
                && InUserRegion(cr2)
                && var w := Leaf(m.mem, FrameOf(cr3), Index(cr2, 1), Index(cr2, 0)); Present(w) && Writable(w)
    {
      hide MemOk, AbsProcs, ProcsOk, View, TlbOk, Leaf, MappedOk, FrameAt, Index, PdSlot, Pde, PdptFrame, HwWalk;
      ProcsShape(m.mem, m.led, procs);
      SlotFacts(m.mem, m.led, procs, cur);
      FaultMeaning(m.mem, m.freeHead, m.kpd, m.led, procs, cur, cr2, err);
      if err % 2 == 0 && cr2 >= USER_DATA_VA && cr2 < procs[cur].brk {
        ok := DemandPage(f, cr2);
        halted := !ok;
        return;
      }
      if err % 4 == 3 && cr2 >= USER_CODE_VA && cr2 < USER_REGION_END {
        RootListed(m.mem, m.led, procs, cur);
        RootAligned(m.mem, m.led, procs, cur);
        var pte := m.FindPte(procs[cur].pml4, cr2);
        LeafAtSlot(m.mem, FrameOf(cr3), cr2);
        if pte.Some? {
          var w := At(m.mem, pte.value.table, pte.value.idx);
          if Present(w) && User(w) && !Writable(w) {
            ok := CopyPage(f, cr2, pte.value);
            halted := !ok;
            return;
          }
        }
      }
      halted := true;
      ok := false;
    }

    /** One ring-3 access: at most one fault, one trip through the handler, one retry.
        The result is the frame the access reaches; None means the machine has halted. */
    method Access(va: Word, write: bool) returns (frame: Option<nat>)
      requires InUser()
      modifies this`tlb, this`halted, this`regs, m
      ensures frame.None? ==> halted && (!Mapped(Me(old(Live())), va) || old(m.led).stack == [])
      ensures frame.Some? ==>
                && InUser() && Live() == old(Live()) && Mapped(Me(Live()), va)
                && |old(m.led).stack| - 1 <= |m.led.stack| <= |old(m.led).stack|
                && var w := Leaf(m.mem, FrameOf(cr3), Index(va, 1), Index(va, 0));
                && frame == Some(FrameOf(w)) && Present(w) && (write ==> Writable(w))
    {
      hide MemOk, AbsProcs, ProcsOk, View, TlbOk, Leaf, MappedOk, FrameAt, Index, HwWalk, HwAccess;
      ProcsShape(m.mem, m.led, procs);
      SlotFacts(m.mem, m.led, procs, cur);
      if !Canonical(va) {
        halted := true;
        return None;
      }
      RootListed(m.mem, m.led, procs, cur);
      TlbInvisible(m.mem, m.freeHead, m.kpd, m.led, FrameOf(cr3), tlb, va, write);
      AccessMeaning(m.mem, m.freeHead, m.kpd, m.led, procs, cur, va, write);
      var a := HwAccess(m.mem, FrameOf(cr3), tlb, va, write);
      if a.Fault? {
        var f := EnterKernel();
        WalkKept(old(m.mem), m.mem, m.freeHead, m.kpd, m.led, FrameOf(cr3), va);
        var ok := PfHandler(f, va, a.err);
        if !ok { return None; }
        LeaveKernel(f);
        ProcsShape(m.mem, m.led, procs);
        SlotFacts(m.mem, m.led, procs, cur);
        RootListed(m.mem, m.led, procs, cur);
        TlbInvisible(m.mem, m.freeHead, m.kpd, m.led, FrameOf(cr3), tlb, va, write);
        WalkIsLeaf(m.mem, m.freeHead, m.kpd, m.led, FrameOf(cr3), va);
        a := HwAccess(m.mem, FrameOf(cr3), tlb, va, write);
      }
      frame := Some(a.frame);
    }

    /** A ring-3 load of the aligned word at va. */
    method Load(va: Word) returns (w: Option<Word>)
      requires InUser()
      modifies this`tlb, this`halted, this`regs, m
      ensures w.None? ==> halted && (!Mapped(Me(old(Live())), va) || old(m.led).stack == [])
      ensures w.Some? ==> InUser() && Live() == old(Live()) && Mapped(Me(Live()), va) && w.value == SLoad(Me(Live()), va)
      ensures w.Some? ==> |m.led.stack| + 1 >= |old(m.led).stack|
    {
      hide MemOk, AbsProcs, ProcsOk, View, TlbOk, Leaf, MappedOk, FrameAt, Index;
      var f := Access(va, false);
      if f.None? { return None; }
      ProcsShape(m.mem, m.led, procs);
      PageShown(m.mem, m.freeHead, m.kpd, m.led, procs, cur, va);
      w := Some(At(m.mem, f.value, WordIx(va)));
    }

    /** A ring-3 store to the aligned word at va. */
    method Store(va: Word, w: Word) returns (ok: bool)
      requires InUser()
      modifies this`tlb, this`halted, this`regs, m
      ensures !ok ==> halted && (!Mapped(Me(old(Live())), va) || old(m.led).stack == [])
      ensures ok ==>
                && InUser() && Mapped(Me(old(Live())), va)
                && Live() == WithMe(old(Live()), SStore(Me(old(Live())), va, w))
      ensures ok ==> |m.led.stack| + 1 >= |old(m.led).stack|
    {
      hide MemOk, AbsProcs, ProcsOk, View, TlbOk, Leaf, MappedOk, FrameAt, Index;
      var f := Access(va, true);
      if f.None? { return false; }
      ProcsShape(m.mem, m.led, procs);
      PageShown(m.mem, m.freeHead, m.kpd, m.led, procs, cur, va);
      ghost var mem0 := m.mem;
      StoreKeeps(m.mem, m.freeHead, m.kpd, m.led, procs, cur, va, w);
      m.mem := Put(m.mem, f.value, WordIx(va), w);
      ProcsShape(m.mem, m.led, procs);
      SavedFrame(m.mem, m.led, procs, cur);
      RootListed(m.mem, m.led, procs, cur);
      TlbFrame(mem0, m.mem, m.led.spaces, FrameOf(cr3), tlb);
      ok := true;
    }

    /** The processor caches the translation a walk just used. */
    method TlbFill(va: Word)
      requires InUser() && InUserRegion(va) && HwWalk(m.mem, FrameOf(cr3), va).Reached?
      modifies this`tlb
      ensures InUser() && Live() == old(Live())
    {
      hide MemOk, AbsProcs, ProcsOk, View, Leaf, MappedOk, FrameAt, Index, HwWalk;
      RootListed(m.mem, m.led, procs, cur);
      WalkIsLeaf(m.mem, m.freeHead, m.kpd, m.led, FrameOf(cr3), va);
      VpnIndex(va);
      var walk := HwWalk(m.mem, FrameOf(cr3), va);
      tlb := tlb[Vpn(va) := TlbEntry(walk.frame, walk.writable)];
    }

    /** The processor may forget a translation at any time. */
    method TlbEvict(v: nat)
      requires InUser()
      modifies this`tlb
      ensures InUser() && Live() == old(Live())
    {
      tlb := tlb - {v};
    }

    /** Any ring-3 computation on registers. */
    method Compute(r: Regs)
      requires InUser()
      modifies this`regs
      ensures InUser() && Live() == WithMe(old(Live()), Me(old(Live())).(regs := r))
    {
      hide MemOk, ProcsOk, View, FrameAt;
      ProcsShape(m.mem, m.led, procs);
      regs := r;
    }

    // ---- Entry points -----------------------------------------------------------

    /** Frames the trap with number n needs if it is to complete. */
    ghost function TrapFrames(n: Word, reply: FileReply): nat
      requires Inv()
      reads this, m, input, input.buf
    {
      if ExecImageOf(n, progC, reply).Some? then 6
      else if n == 4 && FirstEmpty(AbsProcs(m.mem, procs), 0).Some? then ForkFrames()
      else 0
    }

    /** How a handler left the machine: where it runs next, or that it halted. */
    ghost predicate Left(g: Option<Word>)
      reads this, m, input, input.buf
    {
      !halted ==> if inIdle then g == None && Parked() else g.Some? && InKernel(g.value)
    }

    /** syscall_handler: dispatch on rax.  Calls of the file system and the consoles answer
        through `reply`. */
    method SyscallHandler(f: Word, reply: FileReply) returns (g: Option<Word>)
      requires InKernel(f) && (reply.image.Some? ==> |reply.image.value| <= WORDS_PER_PAGE)
      modifies this`procs, this`cur, this`cr3, this`tlb, this`inIdle, this`halted, this`delivered, m, input
      ensures Left(g) && SysOk(old(Saved())) && |Me(old(Saved())).pages| <= MAX_PAGES
      ensures !halted ==> STrap(old(Saved()), progC, reply, Go(Saved()))
      ensures halted ==>
                || STrap(old(Saved()), progC, reply, Stop)
                || |old(m.led).stack| < old(TrapFrames(Me(Saved()).regs[RAX], reply))
      ensures !halted ==> |m.led.stack| == |old(m.led).stack| - old(TrapFrames(Me(Saved()).regs[RAX], reply))
    {
      hide MemOk, AbsProcs, ProcsOk, View, TlbOk, ForkFrames, SFork, SSwitch, SRead, SSbrk, SExit, SExec;
      ProcsShape(m.mem, m.led, procs);
      SlotFacts(m.mem, m.led, procs, cur);
      g := Some(f);
      var n := GetReg(f, RAX);
      match n {
        case 2 => g := SysExit(f);
        case 3 => g := SysYield(f);
        case 4 =>
          var ok := SysFork(f);
          halted := !ok;
        case 5 =>
          var ok := ExecImage(progC, f);
          halted := !ok;
        case 6 =>
          var ok := SysSbrk(f);
        case 7 => g := SysRead(f);
        case 12 =>
          if reply.image.Some? {
            var ok := ExecImage(reply.image.value, f);
            halted := !ok;
          } else {
            SetReg(f, RAX, MINUS_ONE);
          }
        case _ =>
          if 8 <= n <= 11 || n == 13 {
            SetReg(f, RAX, reply.ret);
          }
      }
    }

    /** drain_rx: push and wake for every byte the UART holds. */
    method DrainRx(bytes: seq<Byte>)
      requires Inv()
      modifies this`procs, this`accepted, input, input.buf
      ensures Inv() && SysOk(old(Saved())) && Saved() == SInputs(old(Saved()), bytes)
      ensures forall s | 0 <= s < NPROC ::
                procs[s] == old(procs)[s] || (old(procs)[s].state == WAITING && procs[s] == old(procs)[s].(state := READY))
    {
      hide MemOk, ProcsOk, AbsProcs, SInput;
      ProcsShape(m.mem, m.led, procs);
      for i := 0 to |bytes|
        invariant Inv() && SysOk(Saved()) && |procs| == NPROC
        invariant SInputs(Saved(), bytes[i..]) == SInputs(old(Saved()), bytes)
        invariant forall s | 0 <= s < NPROC ::
                    procs[s] == old(procs)[s] || (old(procs)[s].state == WAITING && procs[s] == old(procs)[s].(state := READY))
      {
        assert bytes[i..][0] == bytes[i] && bytes[i..][1..] == bytes[i + 1..];
        PushAndWake(bytes[i]);
        ProcsShape(m.mem, m.led, procs);
      }
    }

    /** timer_handler in ring 3: drain the UART, then an involuntary yield. */
    method TickInUser(bytes: seq<Byte>) returns (g: Option<Word>)
      requires InUser()
      modifies this`procs, this`cur, this`cr3, this`tlb, this`inIdle, this`halted, this`accepted, m, input, input.buf
      ensures SysOk(old(Live())) && Resumes(SSwitch(SInputs(old(Live()), bytes)), g) && m.led == old(m.led)
    {
      hide MemOk, ProcsOk, AbsProcs, SSwitch, SInput, TlbOk;
      ProcsShape(m.mem, m.led, procs);
      var f := EnterKernel();
      DrainRx(bytes);
      ProcsShape(m.mem, m.led, procs);
      g := Schedule(f);
    }

    /** Interrupts while parked only push and wake; the idle loop then looks for a READY slot. */
    method InterruptInIdle(bytes: seq<Byte>) returns (g: Option<Word>)
      requires Parked()
      modifies this`procs, this`cur, this`cr3, this`tlb, this`inIdle, this`accepted, input, input.buf
      ensures if g.Some? then InKernel(g.value) else Parked()
      ensures input.Valid() && SysOk(old(Saved())) && Saved() == SUnpark(SInputs(old(Saved()), bytes))
    {
      hide MemOk, ProcsOk, AbsProcs, SUnpark, SInputs;
      ProcsShape(m.mem, m.led, procs);
      ghost var w :| 0 <= w < NPROC && procs[w].state == WAITING;
      DrainRx(bytes);
      ProcsShape(m.mem, m.led, procs);
      if forall s | 0 <= s < NPROC :: procs[s].state != READY {
        assert procs[w].state == WAITING;
      }
      g := Unpark();
    }

    /** kbd_handler, uart_handler: push, wake, and return to the interrupted frame. */
    method DeviceInUser(b: Byte)
      requires InUser()
      modifies this`procs, this`accepted, this`regs, m, input, input.buf
      ensures InUser() && SysOk(old(Live())) && Live() == SInput(old(Live()), b) && m.led == old(m.led)
    {
      hide MemOk, ProcsOk, AbsProcs, SInput, TlbOk;
      ProcsShape(m.mem, m.led, procs);
      var f := EnterKernel();
      PushAndWake(b);
      ProcsShape(m.mem, m.led, procs);
      LeaveKernel(f);
    }

    /** The abstract system, wherever the machine is between events. */
    ghost function Now(): Sys
      requires input.Valid()
      reads this, m, input, input.buf
    {
      if inIdle then Saved() else Live()
    }

    ghost predicate Ready()
      reads this, m, input, input.buf
    {
      (InUser() || Parked()) && SysOk(Now()) && |Me(Now()).pages| <= MAX_PAGES
    }

    /** Frames event e may need. */
    ghost function FramesFor(e: Event): nat
      requires Ready()
      reads this, m, input, input.buf
    {
      if inIdle then 0 else FramesInUser(e)
    }

    ghost function FramesInUser(e: Event): nat
      requires InUser()
      reads this, m, input, input.buf
    {
      match e
        case Load(_) => 1
        case Store(_, _) => 1
        case Trap(reply) => TrapFrames(regs[RAX], reply)
        case _ => 0
    }

    /** int 0x80 from ring 3. */
    method TrapInUser(reply: FileReply)
      requires InUser() && (reply.image.Some? ==> |reply.image.value| <= WORDS_PER_PAGE)
      modifies this`procs, this`cur, this`cr3, this`tlb, this`inIdle, this`halted, this`delivered, this`regs, m, input
      ensures SysOk(old(Live())) && |Me(old(Live())).pages| <= MAX_PAGES
      ensures !halted ==> (if inIdle then Parked() else InUser()) && STrap(old(Live()), progC, reply, Go(Now()))
      ensures halted ==> STrap(old(Live()), progC, reply, Stop) || |old(m.led).stack| < old(TrapFrames(regs[RAX], reply))
      ensures !halted ==> |m.led.stack| == |old(m.led).stack| - old(TrapFrames(regs[RAX], reply))
    {
      hide MemOk, ProcsOk, AbsProcs, STrap, TlbOk, PresentPdes, FirstEmpty;
      ghost var pds := PresentPdes(m.mem, FrameOf(procs[cur].pml4), WORDS_PER_PAGE);
      ghost var mem0, led0, head0 := m.mem, m.led, m.freeHead;
      ProcsShape(m.mem, m.led, procs);
      var f := EnterKernel();
      TrapFramesKept(mem0, m.mem, head0, m.kpd, led0, procs, cur);
      var g := SyscallHandler(f, reply);
      if halted || inIdle { return; }
      LeaveKernel(g.value);
    }

    /** One event while parked: only interrupts get through. */
    method StepInIdle(e: Event)
      requires Parked()
      modifies this`procs, this`cur, this`cr3, this`tlb, this`inIdle, this`accepted, this`regs, input, input.buf
      ensures Ready() && SysOk(old(Saved())) && |Me(old(Saved())).pages| <= MAX_PAGES
      ensures SpecNext(old(Saved()), progC, e, Quiet, Go(Now()))
    {
      hide MemOk, ProcsOk, AbsProcs, TlbOk, SSwitch, SInputs, SInput, SUnpark, SpecRing3;
      PagesBound(m.mem, m.led, procs);
      match e {
        case Tick(bytes) =>
          var g := InterruptInIdle(bytes);
          if g.Some? { LeaveKernel(g.value); }
        case Device(b) =>
          OneInput(Saved(), b);
          var g := InterruptInIdle([b]);
          if g.Some? { LeaveKernel(g.value); }
        case _ =>
      }
      PagesBound(m.mem, m.led, procs);
    }

    /** One event of ring 3 itself: an access, a computation, or the processor caching or forgetting
        a translation. */
    method StepInRing3(e: Event) returns (obs: Obs)
      requires InUser() && (e.Load? || e.Store? || e.Compute? || e.TlbFill? || e.TlbEvict?)
      modifies this`tlb, this`halted, this`regs, m
      ensures SysOk(old(Live())) && |Me(old(Live())).pages| <= MAX_PAGES
      ensures !halted ==> InUser() && SpecNext(old(Live()), progC, e, obs, Go(Live()))
      ensures halted ==> SpecNext(old(Live()), progC, e, obs, Stop) || |old(m.led).stack| < old(FramesInUser(e))
      ensures !halted ==> |m.led.stack| + old(FramesInUser(e)) >= |old(m.led).stack|
    {
      hide MemOk, ProcsOk, AbsProcs, TlbOk, Leaf, HwWalk, SLoad, SStore, Mapped, CpuOk, SomeWaiting;
      obs := Quiet;
      PagesBound(m.mem, m.led, procs);
      match e {
        case Load(va) =>
          var w := Load(va);
          if w.Some? { obs := Value(w.value); }
        case Store(va, w) =>
          var ok := Store(va, w);
        case Compute(r) => Compute(r);
        case TlbFill(va) =>
          if Canonical(va) && InUserRegion(va) && HwWalk(m.mem, FrameOf(cr3), va).Reached? {
            TlbFill(va);
          }
        case TlbEvict(v) => TlbEvict(v);
      }
    }

    /** A tick, and back to ring 3 if somebody can run. */
    method StepTick(bytes: seq<Byte>)
      requires InUser()
      modifies this`procs, this`cur, this`cr3, this`tlb, this`inIdle, this`halted, this`accepted, this`regs, m, input, input.buf
      ensures SysOk(old(Live())) && m.led == old(m.led)
      ensures !halted ==> (if inIdle then Parked() else InUser()) && SSwitch(SInputs(old(Live()), bytes)) == Go(Now())
      ensures halted ==> SSwitch(SInputs(old(Live()), bytes)) == Stop
    {
      hide MemOk, ProcsOk, AbsProcs, TlbOk, SSwitch, SInputs, CpuOk, SomeWaiting;
      var g := TickInUser(bytes);
      if !halted && g.Some? { LeaveKernel(g.value); }
    }

    lemma LiveOk()
      requires InUser()
      ensures SysOk(Live()) && |Me(Live()).pages| <= MAX_PAGES && !Live().idle
    {
      hide MemOk, ProcsOk, AbsProcs, TlbOk, CpuOk, SomeWaiting;
      PagesBound(m.mem, m.led, procs);
    }

    lemma NowReady()
      requires InUser() || Parked()
      ensures Ready()
    {
      hide MemOk, ProcsOk, AbsProcs, TlbOk, CpuOk, SomeWaiting;
      PagesBound(m.mem, m.led, procs);
    }

    /** One event while ring 3 runs. */
    method StepInUser(e: Event) returns (obs: Obs)
      requires InUser() && EventOk(e)
      modifies this`procs, this`cur, this`cr3, this`tlb, this`inIdle, this`halted, this`delivered, this`accepted, this`regs
      modifies m, input, input.buf
      ensures SysOk(old(Live())) && |Me(old(Live())).pages| <= MAX_PAGES
      ensures !halted ==> Ready() && SpecNext(old(Live()), progC, e, obs, Go(Now()))
      ensures halted ==> SpecNext(old(Live()), progC, e, obs, Stop) || |old(m.led).stack| < old(FramesInUser(e))
      ensures !halted ==> |m.led.stack| + old(FramesInUser(e)) >= |old(m.led).stack|
    {
      LiveOk();
      hide MemOk, ProcsOk, STrap, TlbOk, TrapFrames, SSwitch, SInputs, SInput, CpuOk, SomeWaiting, SpecNext, Live, Saved;
      obs := Quiet;
      match e {
        case Trap(reply) =>
          ghost var s := Live();
          TrapInUser(reply);
          TrapIsNext(s, progC, reply, if halted then Stop else Go(Now()));
        case Tick(bytes) =>
          TickIsNext(Live(), progC, bytes);
          StepTick(bytes);
        case Device(b) =>
          DeviceIsNext(Live(), progC, b);
          DeviceInUser(b);
        case _ => obs := StepInRing3(e);
      }
      if !halted {
        NowReady();
      }
    }

    /** One event.  The machine does what the abstract system does, or halts where that halts,
        or halts because it is out of frames. */
    method Step(e: Event) returns (obs: Obs)
      requires Ready() && EventOk(e)
      modifies this`procs, this`cur, this`cr3, this`tlb, this`inIdle, this`halted, this`delivered, this`accepted, this`regs
      modifies m, input, input.buf
      ensures !halted ==> Ready() && SpecNext(old(Now()), progC, e, obs, Go(Now()))
      ensures halted ==> SpecNext(old(Now()), progC, e, obs, Stop) || |old(m.led).stack| < old(FramesFor(e))
      ensures !halted ==> |m.led.stack| + old(FramesFor(e)) >= |old(m.led).stack|
    {
      hide MemOk, ProcsOk, AbsProcs, TlbOk, SpecNext, FramesInUser;
      if inIdle {
        StepInIdle(e);
        obs := Quiet;
      } else {
        obs := StepInUser(e);
      }
    }

    /** A whole run: every step until the machine halts is a step of the eager-copy system; it halts
        only where that system stops or where fewer frames are free than the event may need, and
        an event uses up no more frames than it may need. */
    method Run(events: seq<Event>) returns (obs: seq<Obs>, ghost trace: seq<Sys>, ghost free: seq<nat>, ghost needs: seq<nat>)
      requires Ready() && forall k | 0 <= k < |events| :: EventOk(events[k])
      modifies this`procs, this`cur, this`cr3, this`tlb, this`inIdle, this`halted, this`delivered, this`accepted, this`regs
      modifies m, input, input.buf
      ensures |trace| == |free| == |obs| + 1 <= |events| + 1 && trace[0] == old(Now()) && free[0] == |old(m.led).stack|
      ensures IsTrace(trace, progC, events[..|obs|], obs)
      ensures |needs| == |obs| + (if halted then 1 else 0) <= |events|
      ensures forall k | 0 <= k < |needs| :: MayNeed(trace[k], progC, events[k], needs[k])
      ensures forall k | 0 <= k < |obs| :: free[k + 1] + needs[k] >= free[k]
      ensures !halted ==> |obs| == |events| && Ready() && trace[|obs|] == Now()
      ensures halted ==> free[|obs|] < needs[|obs|] || exists o :: SpecNext(trace[|obs|], progC, events[|obs|], o, Stop)
    {
      hide MemOk, ProcsOk, TlbOk, AbsProcs, SpecNext, Live, Saved, FramesFor, MayNeed, CpuOk, SomeWaiting;
      obs, trace, free, needs := [], [Now()], [|m.led.stack|], [];
      while |obs| < |events|
        invariant |trace| == |free| == |obs| + 1 <= |events| + 1 && trace[0] == old(Now()) && free[0] == |old(m.led).stack|
        invariant !halted && Ready() && trace[|obs|] == Now() && free[|obs|] == |m.led.stack| && |needs| == |obs|
        invariant forall k | 0 <= k <= |obs| :: SysOk(trace[k]) && |Me(trace[k]).pages| <= MAX_PAGES
        invariant forall k | 0 <= k < |obs| :: SpecNext(trace[k], progC, events[k], obs[k], Go(trace[k + 1]))
        invariant forall k | 0 <= k < |obs| :: MayNeed(trace[k], progC, events[k], needs[k])
        invariant forall k | 0 <= k < |obs| :: free[k + 1] + needs[k] >= free[k]
      {
        var e := events[|obs|];
        FramesNeeded(e);
        needs := needs + [FramesFor(e)];
        var o := Step(e);
        if halted { return; }
        obs, trace, free := obs + [o], trace + [Now()], free + [|m.led.stack|];
      }
    }

    /** Where the machine takes events, nobody waits beside a byte, the runner is READY, and it is
        parked only while nobody can run: the runs of KernelRuns start here. */
    lemma ReadyStarts()
      requires Ready()
      ensures InputOk(Now()) && RunnerReady(Now()) && Settled(Now())
    {
      hide MemOk, TlbOk, View, FrameAt;
      ProcsShape(m.mem, m.led, procs);
      SameWaiting(AbsProcs(m.mem, procs), procs);
      SameWaiting(Now().procs, procs);
    }

    /** What FramesFor counts, in terms of the abstract system. */
    lemma FramesNeeded(e: Event)
      requires Ready()
      ensures MayNeed(Now(), progC, e, FramesFor(e))
    {
      hide MemOk, ProcsOk, TlbOk, PresentPdes;
      PagesBound(m.mem, m.led, procs);
      ProcsShape(m.mem, m.led, procs);
      if !inIdle && e.Trap? {
        PdesBound(m.mem, FrameOf(procs[cur].pml4), WORDS_PER_PAGE);
        SameEmpty(AbsProcs(m.mem, procs), Live().procs, 0);
      }
    }

    /** start: enter the lowest READY slot. */
    method Start() returns (ok: bool)
      requires Inv() && !halted && !inIdle
      modifies this`cur, this`cr3, this`tlb, this`inIdle, this`regs
      ensures ok <==> SomeReady(procs)
      ensures ok ==> Ready() && InUser() && Live() == old(Saved()).(cur := cur)
      ensures ok ==> procs[cur].state == READY && forall s | 0 <= s < cur :: procs[s].state != READY
    {
      hide MemOk, ProcsOk, AbsProcs, TlbOk;
      ProcsShape(m.mem, m.led, procs);
      for i := 0 to NPROC
        invariant |procs| == NPROC && forall s | 0 <= s < i :: procs[s].state != READY
      {
        if procs[i].state == READY {
          var f := SwitchTo(i);
          LeaveKernel(f);
          PagesBound(m.mem, m.led, procs);
          return true;
        }
      }
      ok := false;
    }

    /** The programs into the first slots, in order: seven frames each. */
    method SpawnAll(progs: seq<seq<Word>>) returns (ok: bool)
      requires Inv() && !halted && !inIdle && forall s | 0 <= s < NPROC && s < |procs| :: procs[s].state == EMPTY
      requires 0 < |progs| <= NPROC && forall p | 0 <= p < |progs| :: |progs[p]| <= WORDS_PER_PAGE
      modifies this`procs, m
      ensures ok <==> |old(m.led).stack| >= 7 * |progs|
      ensures ok ==> Inv() && Spawned(Saved().procs, progs, |progs|) && |procs| == NPROC && procs[0].state == READY
    {
      hide MemOk, ProcsOk, AbsProcs, View, FrameAt;
      ProcsShape(m.mem, m.led, procs);
      AllEmpty(m.mem, procs);
      for p := 0 to |progs|
        invariant Inv() && Spawned(Saved().procs, progs, p) && |m.led.stack| == |old(m.led).stack| - 7 * p
      {
        FirstFree(Saved().procs, progs, p, 0);
        ok := Spawn(progs[p]);
        if !ok { return; }
      }
      ProcsShape(m.mem, m.led, procs);
      FirstRunnable(m.mem, procs, progs);
      ok := true;
    }

    /** kmain's order of business: seed memory, spawn the programs, enter the first. */
    static method Boot(ram: Ram, kpd: nat, entries: seq<E820Entry>, kend: nat, progs: seq<seq<Word>>, image: seq<Word>)
      returns (k: Kernel, ok: bool, frames: nat)
      requires kpd < |ram| <= IDENTITY_FRAMES && E820Ok(entries, |ram|) && 0x40_0000 <= kpd * PAGE_SIZE < kend
      requires 0 < |progs| <= NPROC && |image| <= WORDS_PER_PAGE
      requires forall p | 0 <= p < |progs| :: |progs[p]| <= WORDS_PER_PAGE
      ensures ok <==> frames >= 2 + 7 * |progs|
      ensures ok ==> k.Ready() && k.InUser() && Spawned(k.Live().procs, progs, |progs|) && k.Live().cur == 0
    {
      hide MemOk, ProcsOk, AbsProcs, View, FrameAt;
      var m := new PhysMem(ram, kpd);
      frames := m.Init(entries, kend);
      var reused: bool;
      ok, reused := m.ReuseCheck();
      var ring := new InputRing();
      k := new Kernel(m, ring, image);
      if ok {
        ok := k.SpawnAll(progs);
      }
      if ok {
        ok := k.Start();
      }
    }

    /** ustr_ok: every page the buffer touches is mapped for ring 3.  Untouched heap pages are
        refused; what is accepted lies in the caller's flat memory. */
    method UstrOk(ptr: Word, len: Word) returns (ok: bool)
      requires Inv() && procs[cur].state != EMPTY
      ensures ok <==>
                && len > 0 && USER_CODE_VA <= ptr && ptr + len <= USER_REGION_END
                && forall va: Word | ptr <= va < ptr + len :: Present(LeafOfVpn(m.mem, FrameOf(procs[cur].pml4), Vpn(va)))
      ensures ok ==> forall va: Word | ptr <= va < ptr + len :: Mapped(AbsProc(m.mem, procs[cur]), va)
    {
      hide MemOk, ProcsOk, AbsProcs, View, FrameAt, Leaf, Index, MappedOk, Pde, PdSlot, Present, User;
      if len == 0 || ptr < USER_CODE_VA || ptr + len > USER_REGION_END {
        return false;
      }
      ProcsShape(m.mem, m.led, procs);
      RootListed(m.mem, m.led, procs, cur);
      RootAligned(m.mem, m.led, procs, cur);
      SlotFacts(m.mem, m.led, procs, cur);
      ghost var r := FrameOf(procs[cur].pml4);
      var page := ptr / 4096 * 4096;
      while page < ptr + len
        invariant page % 4096 == 0 && USER_CODE_VA <= page <= ptr + len + 4095
        invariant forall va: Word | ptr <= va < ptr + len && va < page ::
                    Present(LeafOfVpn(m.mem, r, Vpn(va)))
        invariant page > ptr ==> page <= procs[cur].brk
      {
        var pte := m.FindPte(procs[cur].pml4, page);
        LeafAtSlot(m.mem, r, page);
        LeafFacts(m.mem, m.freeHead, m.kpd, m.led, r, Index(page, 1), Index(page, 0));
        VpnIndex(page);
        SamePageVpn(page);
        if pte.None? {
          PageCovers(ptr, len, page);
          return false;
        }
        var w := At(m.mem, pte.value.table, pte.value.idx);
        if !(Present(w) && User(w)) {
          PageCovers(ptr, len, page);
          return false;
        }
        if page >= procs[cur].brk {
          AboveBreak(m.mem, r, procs, m.led, cur, page);
        }
        PageBelowBreak(m.mem, m.led, procs, cur, page);
        page := page + 0x1000;
      }
      ok := true;
    }
  }

  /** The first n programs loaded, one a slot, each at its entry; the other slots free. */
  predicate Spawned(procs: seq<SProc>, progs: seq<seq<Word>>, n: nat) {
    && |procs| == NPROC && n <= |progs|
    && (forall p | 0 <= p < n && p < NPROC ::
          && procs[p].state == READY && procs[p].regs == ENTRY_REGS && |procs[p].pages| == 2
          && StartsWith(procs[p].pages[0], progs[p]))
    && forall p | n <= p < NPROC :: procs[p].state == EMPTY
  }

  lemma AllEmpty(mem: Ram, procs: seq<Proc>)
    requires |procs| == NPROC && forall s | 0 <= s < NPROC :: procs[s].state == EMPTY
    ensures forall progs :: Spawned(AbsProcs(mem, procs), progs, 0)
  {
    hide View, FrameAt;
  }

  lemma {:induction false} FirstFree(procs: seq<SProc>, progs: seq<seq<Word>>, n: nat, from: nat)
    requires Spawned(procs, progs, n) && from <= n < NPROC
    ensures FirstEmpty(procs, from) == Some(n)
    decreases n - from
  {
    if from < n {
      FirstFree(procs, progs, n, from + 1);
    }
  }

  lemma FirstRunnable(mem: Ram, procs: seq<Proc>, progs: seq<seq<Word>>)
    requires |procs| == NPROC && 0 < |progs| && Spawned(AbsProcs(mem, procs), progs, |progs|)
    ensures procs[0].state == READY
  {
    hide View, FrameAt;
    assert AbsProcs(mem, procs)[0].state == READY;
  }

  /** A slot marked EMPTY holds no process, and the others are as before. */
  lemma RetireKeeps(mem: Ram, led: Ledger, procs: seq<Proc>, s: nat)
    requires ProcsOk(mem, led, procs) && s < NPROC
    ensures var procs' := procs[s := procs[s].(state := EMPTY)];
      && ProcsOk(mem, led, procs') && AbsProcs(mem, procs') == AbsProcs(mem, procs)[s := DEAD]
      && (SomeWaiting(procs') ==> SomeWaiting(procs))
  {
    hide View, FrameAt, MappedOk;
  }

  /** Marking a READY slot WAITING changes its state only. */
  lemma BlockKeeps(mem: Ram, led: Ledger, procs: seq<Proc>, s: nat)
    requires ProcsOk(mem, led, procs) && s < NPROC && procs[s].state != EMPTY
    ensures var procs' := procs[s := procs[s].(state := WAITING)];
      && ProcsOk(mem, led, procs')
      && AbsProcs(mem, procs') == AbsProcs(mem, procs)[s := AbsProc(mem, procs[s]).(state := WAITING)]
  {
    hide View, FrameAt, MappedOk;
  }

  /** The break is where the flat memory ends. */
  lemma SlotFacts(mem: Ram, led: Ledger, procs: seq<Proc>, s: nat)
    requires ProcsOk(mem, led, procs) && s < NPROC && procs[s].state != EMPTY
    ensures AbsProcs(mem, procs)[s] == AbsProc(mem, procs[s])
    ensures AbsProc(mem, procs[s]).Brk() == procs[s].brk && 2 <= |AbsProc(mem, procs[s]).pages| <= MAX_PAGES
  {
    hide View, FrameAt, MappedOk;
    assert |View(mem, FrameOf(procs[s].pml4), NPages(procs[s].brk))| == NPages(procs[s].brk) by {
      ViewSize(mem, FrameOf(procs[s].pml4), NPages(procs[s].brk));
    }
  }

  lemma ViewSize(mem: Ram, r: nat, n: nat)
    ensures |View(mem, r, n)| == n
  {}

  /** Raising the break adds zero pages: nothing is mapped above the old one. */
  lemma GrowKeeps(mem: Ram, led: Ledger, procs: seq<Proc>, s: nat, inc: nat)
    requires ProcsOk(mem, led, procs) && s < NPROC && procs[s].state != EMPTY
    requires inc % PAGE_SIZE == 0 && procs[s].brk + inc <= BRK_MAX
    ensures var procs' := procs[s := procs[s].(brk := procs[s].brk + inc)];
      var a := AbsProc(mem, procs[s]);
      && ProcsOk(mem, led, procs')
      && AbsProcs(mem, procs') == AbsProcs(mem, procs)[s := a.(pages := a.pages + ZeroPages(inc / PAGE_SIZE))]
  {
    hide FrameAt, Leaf;
    var p := procs[s];
    var r, n, n' := FrameOf(p.pml4), NPages(p.brk), NPages(p.brk + inc);
    assert n' == n + inc / PAGE_SIZE <= MAX_PAGES;
    assert View(mem, r, n') == View(mem, r, n) + ZeroPages(inc / PAGE_SIZE);
  }

  /** Slot states are the same in the table and in the abstract system. */
  lemma StatesMatch(mem: Ram, procs: seq<Proc>)
    requires |procs| == NPROC
    ensures States(AbsProcs(mem, procs)) == TableStates(procs)
    ensures AnyWaiting(AbsProcs(mem, procs)) <==> SomeWaiting(procs)
  {
    hide View, FrameAt;
    var a := AbsProcs(mem, procs);
    assert forall s | 0 <= s < NPROC :: a[s].state == procs[s].state;
    if SomeWaiting(procs) {
      var s :| 0 <= s < |procs| && procs[s].state == WAITING;
      assert a[s].state == WAITING;
    }
    if AnyWaiting(a) {
      var s :| 0 <= s < |a| && a[s].state == WAITING;
      assert procs[s].state == WAITING;
    }
  }

  /** Waking readers, abstractly. */
  lemma WakeKeeps(mem: Ram, led: Ledger, procs: seq<Proc>, procs': seq<Proc>)
    requires ProcsOk(mem, led, procs) && |procs'| == NPROC
    requires forall s | 0 <= s < NPROC ::
               procs'[s] == if procs[s].state == WAITING then procs[s].(state := READY) else procs[s]
    ensures ProcsOk(mem, led, procs') && !SomeWaiting(procs')
    ensures var a := AbsProcs(mem, procs);
      |a| == NPROC && AbsProcs(mem, procs') == [Woken(a[0]), Woken(a[1]), Woken(a[2]), Woken(a[3])]
  {
    hide View, FrameAt, MappedOk;
  }

  lemma ProcsShape(mem: Ram, led: Ledger, procs: seq<Proc>)
    requires ProcsOk(mem, led, procs)
    ensures |procs| == |AbsProcs(mem, procs)| == NPROC
  {}

  /** Saving the frame pointer again, or any pointer in a dead slot, changes nothing. */
  lemma KeepFrame(mem: Ram, led: Ledger, procs: seq<Proc>, s: nat, f: Word)
    requires ProcsOk(mem, led, procs) && s < NPROC && (procs[s].state != EMPTY ==> f == procs[s].frame)
    ensures ProcsOk(mem, led, procs[s := procs[s].(frame := f)])
    ensures AbsProcs(mem, procs[s := procs[s].(frame := f)]) == AbsProcs(mem, procs)
    ensures TableStates(procs[s := procs[s].(frame := f)]) == TableStates(procs)
    ensures SomeWaiting(procs[s := procs[s].(frame := f)]) ==> SomeWaiting(procs)
  {
    hide View, FrameAt, ProcOk;
    if procs[s].state != EMPTY {
      assert procs[s := procs[s].(frame := f)] == procs;
    }
  }

  /** Coherence survives any change that keeps the leaves. */
  lemma TlbFrame(mem: Ram, mem': Ram, spaces: set<nat>, r: nat, tlb: map<nat, TlbEntry>)
    requires r in spaces && LeavesKept(mem, mem', spaces) && TlbOk(mem, r, tlb)
    ensures TlbOk(mem', r, tlb)
  {
    hide Leaf;
    forall v | v in tlb
      ensures TlbEntryOk(mem', r, v, tlb[v])
    {
      assert TlbEntryOk(mem, r, v, tlb[v]);
    }
  }

  /** A space without a page directory maps nothing. */
  lemma EmptySpace(mem: Ram, r: nat)
    requires !Present(PdSlot(mem, r))
    ensures forall i: nat, j: nat :: Leaf(mem, r, i, j) == 0
    ensures forall i: nat :: MissingTables(mem, r, i) == 2
  {}

  /** The view of a fresh image: two pages, the first starting with the code. */
  lemma ImageView(mem: Ram, head: Word, kpd: nat, led: Ledger, mem': Ram, r: nat, code: seq<Word>)
    requires MemOk(mem, head, kpd, led) && r in led.spaces && MappedOk(mem, r, 2)
    requires StartsWith(PageOfLeaf(mem, Leaf(mem, r, 0, 0)), code)
    requires LeavesKept(mem, mem', led.spaces) && ViewFramesKept(mem, led.own, mem', r)
    ensures MappedOk(mem', r, 2)
    ensures |View(mem', r, 2)| == 2 && StartsWith(View(mem', r, 2)[0], code)
  {
    hide MemOk, Leaf, MappedOk;
    assert SamePages(mem, r, mem', r);
    ViewFrame(mem, head, kpd, led, r, mem', r, 2);
  }

  /** A root not yet listed belongs to no live process. */
  lemma RootsListed(mem: Ram, led: Ledger, procs: seq<Proc>, r: nat)
    requires ProcsOk(mem, led, procs) && r !in led.spaces
    ensures forall s | 0 <= s < NPROC && procs[s].state != EMPTY :: FrameOf(procs[s].pml4) != r
  {
    hide MappedOk, KStackOk;
    forall s | 0 <= s < NPROC && procs[s].state != EMPTY
      ensures FrameOf(procs[s].pml4) != r
    {
      assert ProcOk(mem, led, procs[s], s);
    }
  }

  /** A live process has a private page directory: its code page hangs under it. */
  lemma UserDirectory(mem: Ram, head: Word, kpd: nat, led: Ledger, procs: seq<Proc>, s: nat)
    requires MemOk(mem, head, kpd, led) && ProcsOk(mem, led, procs) && s < NPROC && procs[s].state != EMPTY
    ensures procs[s].pml4 % PAGE_SIZE == 0 && FrameOf(procs[s].pml4) in led.spaces
    ensures Present(PdSlot(mem, FrameOf(procs[s].pml4)))
  {
    hide MemOk;
    assert ProcOk(mem, led, procs[s], s);
    LeafFacts(mem, head, kpd, led, FrameOf(procs[s].pml4), 0, 0);
  }

  /** A space's view across a change that keeps leaves and data. */
  lemma KeptView(mem: Ram, head: Word, kpd: nat, led: Ledger, mem': Ram, led': Ledger, r: nat, n: nat)
    requires MemOk(mem, head, kpd, led) && r in led.spaces && n <= WORDS_PER_PAGE && MappedOk(mem, r, n)
    requires LeavesKept(mem, mem', led.spaces) && DataKept(mem, led.own, mem', led'.own)
    ensures MappedOk(mem', r, n) && View(mem', r, n) == View(mem, r, n)
  {
    hide MemOk, Leaf, MappedOk, View;
    assert SamePages(mem, r, mem', r);
    ViewFrame(mem, head, kpd, led, r, mem', r, n);
  }

  lemma SavedFrame(mem: Ram, led: Ledger, procs: seq<Proc>, s: nat)
    requires ProcsOk(mem, led, procs) && s < NPROC && procs[s].state != EMPTY
    ensures AbsProcs(mem, procs)[s] == AbsProc(mem, procs[s])
    ensures AbsProc(mem, procs[s]).regs == FrameAt(mem, procs[s].frame)
    ensures AbsProc(mem, procs[s]).pages == View(mem, FrameOf(procs[s].pml4), NPages(procs[s].brk))
  {
    hide View, FrameAt;
  }

  lemma SlotOk(mem: Ram, led: Ledger, procs: seq<Proc>, s: nat)
    requires ProcsOk(mem, led, procs) && s < NPROC && procs[s].state != EMPTY
    ensures ProcOk(mem, led, procs[s], s)
  {}

  /** Putting a READY process in slot i makes nobody wait. */
  lemma NotWaiting(procs: seq<Proc>, i: nat, p: Proc)
    requires i < |procs| && p.state == READY
    ensures SomeWaiting(procs[i := p]) ==> SomeWaiting(procs)
  {
    if SomeWaiting(procs[i := p]) {
      var s :| 0 <= s < |procs| && procs[i := p][s].state == WAITING;
      assert procs[s].state == WAITING;
    }
  }

  lemma AbsReady(mem: Ram, p: Proc)
    ensures AbsProc(mem, p).state == p.state
  {
    hide View, FrameAt;
  }

  lemma TlbEmpty(mem: Ram, r: nat)
    ensures TlbOk(mem, r, map[])
  {}

  lemma NPagesBound(brk: Word)
    requires BrkOk(brk)
    ensures 2 <= NPages(brk) <= MAX_PAGES
  {}

  /** A live process moved to a space no live process has. */
  lemma SwapSpace(mem: Ram, led: Ledger, procs: seq<Proc>, s: nat, pml4: Word)
    requires ProcsOk(mem, led, procs) && s < NPROC && procs[s].state != EMPTY
    requires pml4 % PAGE_SIZE == 0 && FrameOf(pml4) in led.spaces && MappedOk(mem, FrameOf(pml4), 2)
    requires forall t | 0 <= t < NPROC && procs[t].state != EMPTY :: FrameOf(procs[t].pml4) != FrameOf(pml4)
    ensures var procs' := procs[s := procs[s].(pml4 := pml4, brk := USER_DATA_VA)];
      var a := AbsProc(mem, procs[s]);
      && ProcsOk(mem, led, procs') && (SomeWaiting(procs') <==> SomeWaiting(procs))
      && AbsProcs(mem, procs') == AbsProcs(mem, procs)[s := SProc(a.state, View(mem, FrameOf(pml4), 2), a.regs)]
      && AbsProcs(mem, procs)[s] == a
  {
    hide View, FrameAt, MappedOk;
    var procs' := procs[s := procs[s].(pml4 := pml4, brk := USER_DATA_VA)];
    assert NPages(USER_DATA_VA) == 2;
    assert forall t | 0 <= t < NPROC :: procs'[t].state == procs[t].state;
  }

  /** An address below the break is in the user region and selects a page of the view. */
  lemma UserPage(mem: Ram, head: Word, kpd: nat, led: Ledger, procs: seq<Proc>, s: nat, va: Word)
    requires MemOk(mem, head, kpd, led) && ProcsOk(mem, led, procs) && s < NPROC && procs[s].state != EMPTY
    requires USER_CODE_VA <= va < procs[s].brk
    ensures InUserRegion(va) && Index(va, 1) == 0 && Index(va, 0) == PageIx(va) < NPages(procs[s].brk)
    ensures MissingTables(mem, FrameOf(procs[s].pml4), 0) == 0
  {
    hide MemOk, Leaf, MappedOk, KStackOk;
    assert ProcOk(mem, led, procs[s], s);
    assert Present(Leaf(mem, FrameOf(procs[s].pml4), 0, 0)) by { CodeMapped(mem, FrameOf(procs[s].pml4), NPages(procs[s].brk)); }
    LeafFacts(mem, head, kpd, led, FrameOf(procs[s].pml4), 0, 0);
    BelowBreak(va, procs[s].brk);
  }

  lemma CodeMapped(mem: Ram, r: nat, n: nat)
    requires MappedOk(mem, r, n)
    ensures Present(Leaf(mem, r, 0, 0)) && Present(Leaf(mem, r, 0, 1))
  {}

  lemma BelowBreak(va: Word, brk: Word)
    requires BrkOk(brk) && USER_CODE_VA <= va < brk
    ensures InUserRegion(va) && Index(va, 1) == 0 && Index(va, 0) == PageIx(va) < NPages(brk)
  {
    var d := va - USER_CODE_VA;
    assert 0 <= d < 0x1_2000;
    assert va / 0x20_0000 == 512 && va / 0x1000 == 0x4_0000 + d / 0x1000;
  }

  /** `va & !0xFFF` is in the same page. */
  lemma PageBase(va: Word)
    ensures var p := va / PAGE_SIZE * PAGE_SIZE;
      && Index(p, 1) == Index(va, 1) && Index(p, 0) == Index(va, 0) && (InUserRegion(p) <==> InUserRegion(va))
  {
    assert va / PAGE_SIZE * PAGE_SIZE / PAGE_SIZE == va / PAGE_SIZE;
    VpnIndex(va);
    VpnIndex(va / PAGE_SIZE * PAGE_SIZE);
  }

  lemma TrapIsNext(s: Sys, progC: seq<Word>, reply: FileReply, o: Outcome)
    requires SysOk(s) && |Me(s).pages| <= MAX_PAGES && !s.idle
    ensures STrap(s, progC, reply, o) ==> SpecNext(s, progC, Trap(reply), Quiet, o)
  {
    hide STrap;
  }

  lemma TickIsNext(s: Sys, progC: seq<Word>, bytes: seq<Byte>)
    requires SysOk(s) && |Me(s).pages| <= MAX_PAGES && !s.idle
    ensures SpecNext(s, progC, Tick(bytes), Quiet, SSwitch(SInputs(s, bytes)))
  {
    hide SSwitch, SInputs;
  }

  lemma DeviceIsNext(s: Sys, progC: seq<Word>, b: Byte)
    requires SysOk(s) && |Me(s).pages| <= MAX_PAGES && !s.idle
    ensures SpecNext(s, progC, Device(b), Quiet, Go(SInput(s, b)))
  {
    hide SInput;
  }

  lemma RootListed(mem: Ram, led: Ledger, procs: seq<Proc>, s: nat)
    requires ProcsOk(mem, led, procs) && s < NPROC && procs[s].state != EMPTY
    ensures FrameOf(procs[s].pml4) in led.spaces && MappedOk(mem, FrameOf(procs[s].pml4), NPages(procs[s].brk))
  {
    assert ProcOk(mem, led, procs[s], s);
  }

  /** A mapped leaf is one of the pages of the view. */
  lemma LeafInView(mem: Ram, r: nat, n: nat, i: nat, j: nat)
    requires MappedOk(mem, r, n) && i < WORDS_PER_PAGE && j < WORDS_PER_PAGE && Present(Leaf(mem, r, i, j))
    ensures i == 0 && j < n
  {}

  /** What a hardware fault says about the current process. */
  lemma FaultMeaning(mem: Ram, head: Word, kpd: nat, led: Ledger, procs: seq<Proc>, s: nat, va: Word, err: nat)
    requires MemOk(mem, head, kpd, led) && ProcsOk(mem, led, procs) && s < NPROC && procs[s].state != EMPTY
    requires Canonical(va) && Check(HwWalk(mem, FrameOf(procs[s].pml4), va), err / 2 % 2 == 1) == Fault(err)
    ensures var w := Leaf(mem, FrameOf(procs[s].pml4), Index(va, 1), Index(va, 0));
      && (err % 2 == 0 && InUserRegion(va) ==> !Present(w))
      && (Mapped(AbsProc(mem, procs[s]), va) <==>
            || (err % 2 == 0 && USER_DATA_VA <= va < procs[s].brk)
            || (err % 4 == 3 && InUserRegion(va)))
      && (err % 4 == 3 && InUserRegion(va) ==> Present(w) && User(w) && !Writable(w))
  {
    hide MemOk, ProcsOk, Leaf, HwWalk, MappedOk, View, FrameAt, Index;
    ProcsShape(mem, led, procs);
    var r := FrameOf(procs[s].pml4);
    SlotFacts(mem, led, procs, s);
    RootListed(mem, led, procs, s);
    WalkIsLeaf(mem, head, kpd, led, r, va);
    LeafFacts(mem, head, kpd, led, r, Index(va, 1), Index(va, 0));
    if USER_CODE_VA <= va < procs[s].brk {
      UserPage(mem, head, kpd, led, procs, s, va);
      CodeMapped(mem, r, NPages(procs[s].brk));
      assert va < USER_DATA_VA ==> PageIx(va) == 0 || PageIx(va) == 1;
    } else if InUserRegion(va) {
      AboveBreak(mem, r, procs, led, s, va);
    }
  }

  /** In the first two megabytes of the region a page's index is its page number there. */
  lemma RegionIndex(va: Word)
    requires InUserRegion(va)
    ensures Index(va, 1) == 0 ==> Index(va, 0) == (va - USER_CODE_VA) / 0x1000
  {
    var d := va - USER_CODE_VA;
    var p, o := d / 0x1000, d % 0x1000;
    assert va == 0x1000 * (0x4_0000 + p) + o;
    assert va / 0x1000 == 0x4_0000 + p && va / 0x20_0000 == 512 + p / 512;
    assert (0x4_0000 + p) % 512 == p % 512 && (512 + p / 512) % 512 == p / 512;
  }

  /** Nothing is mapped at or above the break. */
  lemma AboveBreak(mem: Ram, r: nat, procs: seq<Proc>, led: Ledger, s: nat, va: Word)
    requires ProcsOk(mem, led, procs) && s < NPROC && procs[s].state != EMPTY && r == FrameOf(procs[s].pml4)
    requires InUserRegion(va) && va >= procs[s].brk
    ensures !Present(Leaf(mem, r, Index(va, 1), Index(va, 0)))
  {
    hide Leaf, Index;
    assert ProcOk(mem, led, procs[s], s);
    RegionIndex(va);
  }

  /** A granted access is to a mapped address; a fault on a mapped one is what pf_handler serves. */
  lemma AccessMeaning(mem: Ram, head: Word, kpd: nat, led: Ledger, procs: seq<Proc>, s: nat, va: Word, write: bool)
    requires MemOk(mem, head, kpd, led) && ProcsOk(mem, led, procs) && s < NPROC && procs[s].state != EMPTY && Canonical(va)
    ensures var w := Leaf(mem, FrameOf(procs[s].pml4), Index(va, 1), Index(va, 0));
      match Check(HwWalk(mem, FrameOf(procs[s].pml4), va), write)
      case Granted(f) => Mapped(AbsProc(mem, procs[s]), va) && f == FrameOf(w) && Present(w) && (write ==> Writable(w))
      case Fault(err) => err / 2 % 2 == 1 <==> write
  {
    hide MemOk, ProcsOk, Leaf, HwWalk, MappedOk, View, FrameAt, Index;
    ProcsShape(mem, led, procs);
    var r := FrameOf(procs[s].pml4);
    SlotFacts(mem, led, procs, s);
    RootListed(mem, led, procs, s);
    WalkIsLeaf(mem, head, kpd, led, r, va);
    if InUserRegion(va) && va >= procs[s].brk {
      AboveBreak(mem, r, procs, led, s, va);
    }
  }

  lemma RootAligned(mem: Ram, led: Ledger, procs: seq<Proc>, s: nat)
    requires ProcsOk(mem, led, procs) && s < NPROC && procs[s].state != EMPTY
    ensures procs[s].pml4 % PAGE_SIZE == 0
  {
    assert ProcOk(mem, led, procs[s], s);
  }

  lemma LeafAtSlot(mem: Ram, r: nat, va: Word)
    ensures Leaf(mem, r, Index(va, 1), Index(va, 0)) ==
      if Present(Pde(mem, r, Index(va, 1))) then At(mem, FrameOf(Pde(mem, r, Index(va, 1))), Index(va, 0)) else 0
    ensures !Present(0)
  {}

  /** Saving registers does not change what an address translates to. */
  lemma WalkKept(mem: Ram, mem': Ram, head: Word, kpd: nat, led: Ledger, r: nat, va: Word)
    requires MemOk(mem', head, kpd, led) && r in led.spaces && LeavesKept(mem, mem', led.spaces)
    requires MemOk(mem, head, kpd, led) && Canonical(va)
    ensures HwWalk(mem', r, va) == HwWalk(mem, r, va)
  {
    WalkIsLeaf(mem, head, kpd, led, r, va);
    WalkIsLeaf(mem', head, kpd, led, r, va);
  }

  /** The frame behind a present leaf below the break holds the page the process sees. */
  lemma PageShown(mem: Ram, head: Word, kpd: nat, led: Ledger, procs: seq<Proc>, s: nat, va: Word)
    requires MemOk(mem, head, kpd, led) && ProcsOk(mem, led, procs) && s < NPROC && procs[s].state != EMPTY
    requires Mapped(AbsProc(mem, procs[s]), va)
    requires Present(Leaf(mem, FrameOf(procs[s].pml4), Index(va, 1), Index(va, 0)))
    ensures AbsProcs(mem, procs)[s] == AbsProc(mem, procs[s])
    ensures Index(va, 1) == 0 && Index(va, 0) == PageIx(va) < |AbsProc(mem, procs[s]).pages|
    ensures var f := FrameOf(Leaf(mem, FrameOf(procs[s].pml4), Index(va, 1), Index(va, 0)));
      f < |mem| && AbsProc(mem, procs[s]).pages[PageIx(va)] == mem[f]
  {
    hide MemOk, Leaf, MappedOk, FrameAt, Index;
    SlotFacts(mem, led, procs, s);
    RootListed(mem, led, procs, s);
    UserPage(mem, head, kpd, led, procs, s, va);
    MemSize(mem, head, kpd, led);
    LeafFacts(mem, head, kpd, led, FrameOf(procs[s].pml4), Index(va, 1), Index(va, 0));
  }

  /** A store through a writable leaf is a store to the current process's flat memory alone. */
  lemma StoreKeeps(mem: Ram, head: Word, kpd: nat, led: Ledger, procs: seq<Proc>, s: nat, va: Word, w: Word)
    requires MemOk(mem, head, kpd, led) && ProcsOk(mem, led, procs) && s < NPROC && procs[s].state != EMPTY
    requires Mapped(AbsProc(mem, procs[s]), va)
    requires var l := Leaf(mem, FrameOf(procs[s].pml4), Index(va, 1), Index(va, 0)); Present(l) && Writable(l)
    ensures var f := FrameOf(Leaf(mem, FrameOf(procs[s].pml4), Index(va, 1), Index(va, 0)));
      && f < |mem| && PageIx(va) < |AbsProc(mem, procs[s]).pages|
      && var mem' := Put(mem, f, WordIx(va), w);
      && MemOk(mem', head, kpd, led) && ProcsOk(mem', led, procs) && LeavesKept(mem, mem', led.spaces)
      && AbsProcs(mem', procs) == AbsProcs(mem, procs)[s := SStore(AbsProc(mem, procs[s]), va, w)]
  {
    hide MemOk, Leaf, MappedOk, FrameAt, Index, View, KStackOk;
    var p := procs[s];
    var r, n := FrameOf(p.pml4), NPages(p.brk);
    PageShown(mem, head, kpd, led, procs, s, va);
    SavedFrame(mem, led, procs, s);
    RootListed(mem, led, procs, s);
    SlotOk(mem, led, procs, s);
    NPagesBound(p.brk);
    ViewSize(mem, r, n);
    var j, f := PageIx(va), FrameOf(Leaf(mem, r, Index(va, 1), Index(va, 0)));
    var page := mem[f][WordIx(va) := w];
    ViewStore(mem, head, kpd, led, r, n, j, page);
    MemSize(mem, head, kpd, led);
    var mem' := mem[f := page];
    forall t | 0 <= t < NPROC && t != s && procs[t].state != EMPTY
      ensures Undisturbed(mem, led, mem', led, procs[t], t)
    {
      SlotOk(mem, led, procs, t);
      DistinctRoots(mem, led, procs, t, s);
    }
    OneChanged(mem, head, kpd, led, mem', led, procs, s, View(mem, r, n)[j := page]);
  }

  /** Saving registers changes neither the slot states nor the page directory. */
  lemma TrapFramesKept(mem: Ram, mem': Ram, head: Word, kpd: nat, led: Ledger, procs: seq<Proc>, s: nat)
    requires MemOk(mem, head, kpd, led) && ProcsOk(mem, led, procs) && s < NPROC && procs[s].state != EMPTY
    requires forall r | r in led.spaces :: TablesKept(mem, mem', r)
    ensures PresentPdes(mem', FrameOf(procs[s].pml4), WORDS_PER_PAGE) == PresentPdes(mem, FrameOf(procs[s].pml4), WORDS_PER_PAGE)
    ensures FirstEmpty(AbsProcs(mem', procs), 0) == FirstEmpty(AbsProcs(mem, procs), 0)
  {
    hide MemOk, View, FrameAt, Pde;
    RootListed(mem, led, procs, s);
    SamePdes(mem, mem', FrameOf(procs[s].pml4), WORDS_PER_PAGE);
    SameEmpty(AbsProcs(mem, procs), AbsProcs(mem', procs), 0);
  }

  lemma SameWaiting(a: seq<SProc>, procs: seq<Proc>)
    requires |a| == |procs| && forall k | 0 <= k < |a| :: a[k].state == procs[k].state
    ensures AnyWaiting(a) ==> SomeWaiting(procs)
  {
    if AnyWaiting(a) {
      var w :| 0 <= w < |a| && a[w].state == WAITING;
      assert procs[w].state == WAITING;
    }
  }

  lemma {:induction false} PdesBound(mem: Ram, r: nat, n: nat)
    ensures PresentPdes(mem, r, n) <= n
  {
    if n > 0 {
      PdesBound(mem, r, n - 1);
    }
  }

  lemma {:induction false} SamePdes(mem: Ram, mem': Ram, r: nat, n: nat)
    requires n <= WORDS_PER_PAGE && TablesKept(mem, mem', r)
    ensures PresentPdes(mem', r, n) == PresentPdes(mem, r, n)
  {
    if n > 0 {
      SamePdes(mem, mem', r, n - 1);
      assert Pde(mem', r, n - 1) == Pde(mem, r, n - 1);
    }
  }

  lemma {:induction false} SameEmpty(a: seq<SProc>, b: seq<SProc>, from: nat)
    requires |a| == |b| && forall k | 0 <= k < |a| :: a[k].state == b[k].state
    ensures FirstEmpty(a, from) == FirstEmpty(b, from)
    decreases |a| - from
  {
    if from < |a| && a[from].state != EMPTY {
      SameEmpty(a, b, from + 1);
    }
  }

  /** Images come from a 4096-byte buffer. */
  predicate EventOk(e: Event) {
    e.Trap? && e.reply.image.Some? ==> |e.reply.image.value| <= WORDS_PER_PAGE
  }

  lemma OneInput(s: Sys, b: Byte)
    requires SysOk(s)
    ensures SInputs(s, [b]) == SInput(s, b)
  {
    assert [b][1..] == [];
  }

  /** Flat memories stay within the code page, the stack page and a 64 KiB heap. */
  lemma PagesBound(mem: Ram, led: Ledger, procs: seq<Proc>)
    requires ProcsOk(mem, led, procs)
    ensures |AbsProcs(mem, procs)| == NPROC
    ensures forall s | 0 <= s < NPROC :: |AbsProc(mem, procs[s]).pages| <= MAX_PAGES && AbsProcs(mem, procs)[s] == AbsProc(mem, procs[s])
  {
    hide View, FrameAt, MappedOk;
    forall s | 0 <= s < NPROC
      ensures |AbsProc(mem, procs[s]).pages| <= MAX_PAGES
    {
      if procs[s].state != EMPTY {
        SlotFacts(mem, led, procs, s);
      }
    }
  }

  /** All addresses of a page share its page number. */
  lemma SamePageVpn(page: Word)
    requires page % 4096 == 0
    ensures forall va: Word | page <= va < page + 4096 :: Vpn(va) == Vpn(page)
  {}

  /** A page the loop of ustr_ok visits contains an address of the buffer. */
  lemma PageCovers(ptr: Word, len: Word, page: Word)
    requires len > 0 && ptr + len <= USER_REGION_END && page % 4096 == 0 && ptr / 4096 * 4096 <= page < ptr + len
    ensures exists va: Word :: ptr <= va < ptr + len && Vpn(va) == Vpn(page)
  {
    var va: Word := if page < ptr then ptr else page;
    assert Vpn(va) == Vpn(page);
  }

  /** The break is page-aligned, so a page starting below it ends at or below it. */
  lemma PageBelowBreak(mem: Ram, led: Ledger, procs: seq<Proc>, s: nat, page: Word)
    requires ProcsOk(mem, led, procs) && s < NPROC && procs[s].state != EMPTY
    requires page % 4096 == 0 && page < procs[s].brk
    ensures page + 4096 <= procs[s].brk
  {
    hide MappedOk;
    assert ProcOk(mem, led, procs[s], s);
  }
}
