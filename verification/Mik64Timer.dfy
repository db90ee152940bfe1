// The interval timer over whole runs, and what protects a handler from it.

module Mik64Timer {
  import opened Mik64Mmu
  import opened Mik64Cpu

  // ---- What one step does to the timer and to the mode ----------------------------------

  predicate FetchOk(m: Machine, cached: bool) {
    var r := Fetched(m, cached).reply; r.Pa? && r.pa + 8 <= RAM_SIZE && r.pa % 8 == 0
  }

  /** The word this step executes. */
  function Current(m: Machine, cached: bool): Word
    requires FetchOk(m, cached)
  {
    Read64(Fetched(m, cached).m.mem, Fetched(m, cached).reply.pa)
  }

  /** What executing it yields. */
  function Executed(m: Machine, cached: bool): Done
    requires FetchOk(m, cached)
  {
    Exec(Fetched(m, cached).m.(pc := Wrap(m.pc + 8)), m.pc, Current(m, cached), cached)
  }

  /** This step completes an instruction, rather than delivering an interrupt or a fault. */
  predicate Completes(m: Machine, cached: bool) {
    !Interrupted(m) && FetchOk(m, cached) && Executed(m, cached).Next?
  }

  predicate IsTimerWrite(w: Word) { Opcode(w) == WRCSR && Wrap(Imm(w)) % 256 == CSR_TIMER }
  predicate WritesTimer(m: Machine, cached: bool) { Completes(m, cached) && IsTimerWrite(Current(m, cached)) }

  /** Same timer and same mode. */
  predicate SameControl(m: Machine, d: Machine) { d.timer == m.timer && d.mode == m.mode && d.halted == m.halted }

  lemma TranslateKeeps(m: Machine, va: nat, access: Access, cached: bool)
    ensures var d := Translate(m, va, access, cached).m;
      SameControl(m, d) && d.regs == m.regs && d.csrs == m.csrs && d.pc == m.pc && d.out == m.out
  {
    hide WalkOf, Marked, Denial, EntryFor, TlbIx, Ppn, PteW, PteU, PteNx;
  }

  /** What a load or a store may do to the control state. */
  ghost predicate KeepsControl(m: Machine, d: Done) {
    match d
    case Next(d) => SameControl(m, d)
    case Faulted(d) => d.timer == m.timer && d.halted == m.halted && !d.mode.intEnabled
    case Crash => true
  }

  lemma LoadKeeps(m: Machine, base: Word, rd: nat, va: Word, wide: bool, cached: bool)
    requires rd < 16
    ensures KeepsControl(m, ExecLoad(m, base, rd, va, wide, cached))
  {
    hide Translate, Read64, Write64;
    TranslateKeeps(m, va, Load, cached);
  }

  lemma StoreKeeps(m: Machine, base: Word, va: Word, w: Word, wide: bool, cached: bool)
    ensures KeepsControl(m, ExecStore(m, base, va, w, wide, cached))
  {
    hide Translate, Read64, Write64;
    TranslateKeeps(m, va, Store, cached);
  }

  /** Only TRAP, INT, ERET, IRET and SRET change the mode, the interrupt flag or epc. */
  predicate ChangesMode(w: Word) { Opcode(w) in {TRAP, INT, ERET, IRET, SRET} }

  /** What any instruction may do to the control state before the tick at its end: only WRCSR
      TIMER touches interval and counter, none touches the pending flag. */
  ghost predicate ControlStep(m: Machine, w: Word, d: Done) {
    match d
    case Next(d) =>
      && d.timer == (if IsTimerWrite(w) then Timer(m.regs[Rs1(w)], m.regs[Rs1(w)], m.timer.pending) else m.timer)
      && (ChangesMode(w) || d.mode == m.mode)
      && d.halted == (m.halted || Opcode(w) == HALT)
    case Faulted(d) => d.timer == m.timer && d.halted == m.halted && !d.mode.intEnabled
    case Crash => true
  }

  lemma ExecControl(m: Machine, base: Word, w: Word, cached: bool)
    ensures ControlStep(m, w, Exec(m, base, w, cached))
  {
    hide ExecLoad, ExecStore, Opcode, Rd, Rs1, Rs2, Imm, AndWord, OrWord, Read64, Wrap, ReadCsr;
    var rd, a, b := Rd(w), m.regs[Rs1(w)], m.regs[Rs2(w)];
    var va := Wrap(a + Imm(w));
    match Opcode(w) {
      case 0x07 => LoadKeeps(m, base, rd, va, false, cached);
      case 0x08 => LoadKeeps(m, base, rd, va, true, cached);
      case 0x09 => StoreKeeps(m, base, va, b, false, cached);
      case 0x0A => StoreKeeps(m, base, va, b, true, cached);
      case _ =>
    }
  }

  /** How one step moves the control state. */
  lemma StepControl(m: Machine, cached: bool)
    requires !m.halted && Step(m, cached).Ok?
    ensures var d := Step(m, cached).m;
      if Interrupted(m) then
        d.timer == m.timer.(pending := false) && d.mode == Mode(false, m.mode.user, false, m.pc) && !d.halted
      else if Completes(m, cached) then
        var w := Current(m, cached);
        var t := if IsTimerWrite(w) then Timer(Operand(m, w), Operand(m, w), m.timer.pending) else m.timer;
        && (!d.halted ==> d.timer == if t.interval == 0 then t else Tick(t))
        && (ChangesMode(w) || d.mode == m.mode)
      else
        d.timer == m.timer && !d.mode.intEnabled && !d.halted
  {
    hide Translate, Exec, Read64, IsTimerWrite, ChangesMode, Tick;
    if !Interrupted(m) {
      var t := Fetched(m, cached);
      TranslateKeeps(m, m.pc, Fetch, cached);
      if FetchOk(m, cached) {
        ExecControl(t.m.(pc := Wrap(m.pc + 8)), m.pc, Current(m, cached), cached);
      }
    }
  }

  function Operand(m: Machine, w: Word): Word { m.regs[Rs1(w)] }

  // ---- Runs -----------------------------------------------------------------------------

  /** Successive states of a machine, up to a halt or an error. */
  ghost predicate IsTrace(s: seq<Machine>, cached: bool) {
    |s| > 0 && forall i | 0 <= i < |s| - 1 :: !s[i].halted && Step(s[i], cached) == Ok(s[i + 1])
  }

  /** Instructions completed in the first i steps. */
  function Count(s: seq<Machine>, i: nat, cached: bool): nat
    requires i <= |s|
  {
    if i == 0 then 0 else Count(s, i - 1, cached) + (if Completes(s[i - 1], cached) then 1 else 0)
  }

  lemma ModStep(k: nat, n: nat)
    requires n > 0
    ensures (k + 1) % n == if k % n + 1 == n then 0 else k % n + 1
  {
    var q, r := k / n, k % n;
    if r + 1 == n {
      ModUnique(q + 1, 0, n, k + 1);
    } else {
      ModUnique(q, r + 1, n, k + 1);
    }
  }

  /** Division with remainder is unique. */
  lemma ModUnique(q: nat, r: nat, n: nat, x: nat)
    requires r < n && x == q * n + r
    ensures x % n == r
  {
    var d := x / n - q;
    assert d * n == x / n * n - q * n == r - x % n;
    if d >= 1 {
      Product(d, n);
    } else if d <= -1 {
      Product(-d, n);
    }
  }

  lemma Product(d: nat, n: nat)
    requires d >= 1
    ensures d * n >= n
  {}

  /** s starts with WRCSR TIMER, n and never writes the timer again. */
  ghost predicate TimedTrace(s: seq<Machine>, n: Word, cached: bool) {
    && IsTrace(s, cached) && n > 0 && |s| > 1
    && WritesTimer(s[0], cached) && Operand(s[0], Current(s[0], cached)) == n
    && forall i | 0 < i < |s| - 1 :: !WritesTimer(s[i], cached)
  }

  /** Instructions still to complete after k of them, before the next tick. */
  function Remaining(k: nat, n: nat): nat
    requires n > 0
  {
    n - k % n
  }

  predicate Due(k: nat, n: nat)
    requires n > 0
  {
    k % n == 0
  }

  lemma FullCount(n: nat)
    requires n > 0
    ensures Remaining(0, n) == n
  {}

  /** With k instructions completed since the write (counting it), the counter is n - k mod n,
      whatever faults, traps and interrupts happen in between. */
  lemma {:induction false} TimerLaw(s: seq<Machine>, n: Word, cached: bool, i: nat)
    requires TimedTrace(s, n, cached) && 0 < i < |s| && !s[i].halted
    ensures s[i].timer.interval == n && s[i].timer.counter == Remaining(Count(s, i, cached), n)
    decreases i
  {
    hide Completes, WritesTimer, Step, Tick, Remaining, Due;
    var j := i - 1;
    assert Step(s[j], cached) == Ok(s[j + 1]);
    if i == 1 {
      assert Count(s, 0, cached) == 0;
      FirstTick(s, n, cached);
      FullCount(n);
      TickDown(Timer(n, n, s[0].timer.pending), n, 0);
    } else {
      TimerLaw(s, n, cached, j);
      LaterTick(s[j], s[i], cached);
      TickDown(s[j].timer, n, Count(s, j, cached));
    }
  }

  /** One tick of a timer with k instructions behind it. */
  lemma TickDown(t: Timer, n: Word, k: nat)
    requires n > 0 && t.interval == n && t.counter == Remaining(k, n)
    ensures Tick(t).interval == n && Tick(t).counter == Remaining(k + 1, n)
    ensures Tick(t).pending == (t.pending || Due(k + 1, n))
  {
    CountDown(k, n);
  }

  /** The counter that stands at n - k mod n, one tick later. */
  lemma CountDown(k: nat, n: nat)
    requires n > 0
    ensures n - (k + 1) % n == if n - k % n <= 1 then n else n - k % n - 1
    ensures (k + 1) % n == 0 <==> n - k % n <= 1
  {
    ModStep(k, n);
  }

  lemma FirstTick(s: seq<Machine>, n: Word, cached: bool)
    requires TimedTrace(s, n, cached) && !s[1].halted
    ensures Completes(s[0], cached) && s[1].timer == Tick(Timer(n, n, s[0].timer.pending))
  {
    hide Step, Translate, Exec, FetchOk;
    assert Step(s[0], cached) == Ok(s[0 + 1]);
    StepControl(s[0], cached);
  }

  lemma LaterTick(m: Machine, d: Machine, cached: bool)
    requires !m.halted && Step(m, cached) == Ok(d) && !d.halted && m.timer.interval > 0 && !WritesTimer(m, cached)
    ensures Completes(m, cached) ==> d.timer == Tick(m.timer)
    ensures !Completes(m, cached) ==> d.timer == m.timer.(pending := m.timer.pending && !m.mode.intEnabled)
  {
    hide Step, Translate, Exec, FetchOk;
    StepControl(m, cached);
  }

  /** The tick is raised by exactly those completed instructions that bring the count to a
      multiple of n; until it is delivered it stays raised. */
  lemma ExpiryLaw(s: seq<Machine>, n: Word, cached: bool, i: nat)
    requires TimedTrace(s, n, cached) && i + 1 < |s| && !s[i + 1].halted && Completes(s[i], cached)
    ensures s[i + 1].timer.pending == (s[i].timer.pending || Due(Count(s, i + 1, cached), n))
  {
    hide Completes, WritesTimer, Step, Tick, Remaining, Due;
    assert Step(s[i], cached) == Ok(s[i + 1]);
    if i == 0 {
      assert Count(s, 0, cached) == 0;
      FirstTick(s, n, cached);
      FullCount(n);
      TickDown(Timer(n, n, s[0].timer.pending), n, 0);
    } else {
      TimerLaw(s, n, cached, i);
      LaterTick(s[i], s[i + 1], cached);
      TickDown(s[i].timer, n, Count(s, i, cached));
    }
  }

  // ---- Handlers ---------------------------------------------------------------------------

  predicate Returns(m: Machine, cached: bool) {
    Completes(m, cached) && Opcode(Current(m, cached)) in {ERET, IRET, SRET}
  }

  /** From a trap, fault or interrupt until the next ERET, IRET or SRET completes, through any
      nested faults and traps, no tick is delivered, and a tick that falls due stays pending. */
  lemma {:induction false} NoTickInHandler(s: seq<Machine>, cached: bool, i: nat)
    requires IsTrace(s, cached) && !s[0].mode.intEnabled && i < |s|
    requires forall j | 0 <= j < i :: !Returns(s[j], cached)
    ensures !s[i].mode.intEnabled && !Interrupted(s[i])
    ensures s[0].timer.pending && !s[i].halted ==> s[i].timer.pending
    decreases i
  {
    if i > 0 {
      hide Step, Returns;
      var j := i - 1;
      NoTickInHandler(s, cached, j);
      assert Step(s[j], cached) == Ok(s[j + 1]);
      assert !Returns(s[j], cached);
      MaskKept(s[j], s[i], cached);
    }
  }

  lemma MaskKept(m: Machine, d: Machine, cached: bool)
    requires !m.halted && Step(m, cached) == Ok(d) && !m.mode.intEnabled && !Returns(m, cached)
    ensures !d.mode.intEnabled && (m.timer.pending && !d.halted ==> d.timer.pending)
  {
    hide Translate, FetchOk, Step, Exec;
    StepControl(m, cached);
    if Completes(m, cached) && ChangesMode(Current(m, cached)) {
      TrapMasks(m, cached);
    }
  }

  lemma TrapMasks(m: Machine, cached: bool)
    requires Completes(m, cached) && Opcode(Current(m, cached)) in {TRAP, INT}
    ensures !Step(m, cached).m.mode.intEnabled
  {
    hide Translate, Read64, ExecLoad, ExecStore, Opcode, Rd, Rs1, Rs2, Imm;
  }

  /** One instruction of a handler that neither traps, faults nor returns. */
  predicate Quiet(m: Machine, cached: bool) { Completes(m, cached) && !ChangesMode(Current(m, cached)) }

  /** A handler entered with return address e from mode u, that neither traps nor faults and ends
      in ERET or IRET, resumes at e in mode u with interrupts on: nothing it does, and no tick,
      can move the saved pc. */
  lemma HandlerReturns(s: seq<Machine>, cached: bool, u: bool, e: Word)
    requires IsTrace(s, cached) && |s| > 1 && s[0].mode == Mode(false, u, false, e)
    requires forall j | 0 <= j < |s| - 2 :: Quiet(s[j], cached)
    requires Completes(s[|s| - 2], cached) && Opcode(Current(s[|s| - 2], cached)) in {ERET, IRET}
    ensures s[|s| - 1].pc == e && s[|s| - 1].mode == Mode(u, u, true, e)
  {
    hide Step, Quiet, Completes, Current;
    var n := |s| - 2;
    QuietKeepsMode(s[..n + 1], cached, n);
    assert Step(s[n], cached) == Ok(s[n + 1]);
    ReturnStep(s[n], cached);
  }

  lemma {:induction false} QuietKeepsMode(s: seq<Machine>, cached: bool, i: nat)
    requires IsTrace(s, cached) && i < |s| && forall j | 0 <= j < i :: Quiet(s[j], cached)
    ensures s[i].mode == s[0].mode
    decreases i
  {
    if i > 0 {
      hide Step, Completes, Current;
      var j := i - 1;
      QuietKeepsMode(s, cached, j);
      assert Step(s[j], cached) == Ok(s[j + 1]);
      assert Quiet(s[j], cached);
      StepControl(s[j], cached);
      CompletesNotInterrupted(s[j], cached);
    }
  }

  lemma CompletesNotInterrupted(m: Machine, cached: bool)
    requires Completes(m, cached)
    ensures !Interrupted(m)
  {}

  lemma ReturnStep(m: Machine, cached: bool)
    requires Completes(m, cached) && Opcode(Current(m, cached)) in {ERET, IRET}
    ensures Step(m, cached).m.pc == m.mode.epc
    ensures Step(m, cached).m.mode == Mode(m.mode.prevUser, m.mode.prevUser, true, m.mode.epc)
  {
    hide Translate, Read64, ExecLoad, ExecStore, Opcode, Rd, Rs1, Rs2, Imm;
    TranslateKeeps(m, m.pc, Fetch, cached);
  }

  /** An interrupt whose handler is quiet is transparent to control flow: the interrupted machine
      resumes at the same pc and in the same mode. */
  lemma InterruptReturns(s: seq<Machine>, cached: bool)
    requires IsTrace(s, cached) && |s| > 2 && Interrupted(s[0])
    requires forall j | 1 <= j < |s| - 2 :: Quiet(s[j], cached)
    requires Completes(s[|s| - 2], cached) && Opcode(Current(s[|s| - 2], cached)) in {ERET, IRET}
    ensures s[|s| - 1].pc == s[0].pc && s[|s| - 1].mode.user == s[0].mode.user && s[|s| - 1].mode.intEnabled
  {
    hide Step, Quiet, Completes, Current;
    assert Step(s[0], cached) == Ok(s[0 + 1]);
    StepControl(s[0], cached);
    var r := s[1..];
    forall i | 0 <= i < |r| - 1 ensures !r[i].halted && Step(r[i], cached) == Ok(r[i + 1]) {
      var k := i + 1;
      assert Step(s[k], cached) == Ok(s[k + 1]);
    }
    HandlerReturns(r, cached, s[0].mode.user, s[0].pc);
  }
}
