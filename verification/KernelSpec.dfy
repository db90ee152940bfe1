// What the x86-64 kernel promises its processes: every process has a private
// flat memory, fork copies it at once, and nothing a process does shows up in
// another one.  No frames, no page tables, no sharing.

module KernelSpec {
  import opened Options
  import opened PageTables
  import opened PhysMemory
  import opened RoundRobin
  import opened Input

  const USER_STACK_VA := 0x4000_1000
  const USER_DATA_VA := 0x4000_2000
  const BRK_MAX := USER_DATA_VA + 0x1_0000
  const WORD_LIMIT := 0x1_0000_0000_0000_0000
  const MINUS_ONE: Word := WORD_LIMIT - 1

  /** The saved frame: r15..rax at 0..14, then rip, cs, rflags, rsp, ss. */
  const FRAME_WORDS := 20
  type Regs = r: seq<Word> | |r| == FRAME_WORDS witness seq(FRAME_WORDS, _ => 0)
  const RDI := 9
  const RAX := 14
  const RIP := 15
  const ZERO_REGS: Regs := [0, 0, 0, 0, 0, 0, 0, 0, 0, 0, 0, 0, 0, 0, 0, 0, 0, 0, 0, 0]

  /** The frame spawn and exec fabricate: entry at the code page, interrupts on, stack at its top. */
  const ENTRY_REGS: Regs :=
    [0, 0, 0, 0, 0, 0, 0, 0, 0, 0, 0, 0, 0, 0, 0, USER_CODE_VA, 0x23, 0x202, USER_STACK_VA + PAGE_SIZE, 0x1B]

  /** A process: code page, stack page, then the heap pages below its break. */
  datatype SProc = SProc(state: PState, pages: seq<Page>, regs: Regs) {
    function Brk(): int { USER_CODE_VA + |pages| * PAGE_SIZE }
  }
  const DEAD := SProc(EMPTY, [], ZERO_REGS)

  datatype Sys = Sys(
    procs: seq<SProc>, cur: nat, idle: bool,
    input: seq<Byte>, accepted: seq<Byte>, delivered: seq<Byte>)

  predicate SysOk(s: Sys) { |s.procs| == NPROC && s.cur < NPROC }

  function States(procs: seq<SProc>): seq<PState> { seq(|procs|, k requires 0 <= k < |procs| => procs[k].state) }

  function Me(s: Sys): SProc requires SysOk(s) { s.procs[s.cur] }
  function WithMe(s: Sys, p: SProc): Sys requires SysOk(s) { s.(procs := s.procs[s.cur := p]) }
  function WithReg(s: Sys, k: nat, w: Word): Sys
    requires SysOk(s) && k < FRAME_WORDS
  {
    WithMe(s, Me(s).(regs := Me(s).regs[k := w]))
  }

  // ---- Memory accesses ------------------------------------------------------

  predicate Mapped(p: SProc, va: Word) { USER_CODE_VA <= va < p.Brk() }
  function PageIx(va: Word): int { (va - USER_CODE_VA) / PAGE_SIZE }
  /** The aligned 64-bit word of a page that contains va. */
  function WordIx(va: Word): nat { va % PAGE_SIZE / 8 }

  function SLoad(p: SProc, va: Word): Word
    requires Mapped(p, va)
  {
    p.pages[PageIx(va)][WordIx(va)]
  }

  function SStore(p: SProc, va: Word, w: Word): SProc
    requires Mapped(p, va)
  {
    p.(pages := p.pages[PageIx(va) := p.pages[PageIx(va)][WordIx(va) := w]])
  }

  // ---- Switching --------------------------------------------------------------

  datatype Outcome = Go(s: Sys) | Stop

  /** Run the next READY process; idle when the rest wait for input; stop when all are gone. */
  function SSwitch(s: Sys): Outcome
    requires SysOk(s)
  {
    match Pick(States(s.procs), s.cur)
    case Some(n) => Go(s.(cur := n))
    case None => if AnyWaiting(s.procs) then Go(s.(idle := true)) else Stop
  }

  predicate AnyWaiting(procs: seq<SProc>) { exists k | 0 <= k < |procs| :: procs[k].state == WAITING }

  function Woken(p: SProc): SProc { if p.state == WAITING then p.(state := READY) else p }

  /** A device byte: queued unless the queue is full, and every waiting reader wakes. */
  function SInput(s: Sys, b: Byte): Sys
    requires SysOk(s)
  {
    s.(input := Pushed(s.input, b),
       accepted := if |s.input| < CAP then s.accepted + [b] else s.accepted,
       procs := [Woken(s.procs[0]), Woken(s.procs[1]), Woken(s.procs[2]), Woken(s.procs[3])])
  }

  function SInputs(s: Sys, bytes: seq<Byte>): Sys
    requires SysOk(s)
    ensures SysOk(SInputs(s, bytes))
    decreases |bytes|
  {
    if bytes == [] then s else SInputs(SInput(s, bytes[0]), bytes[1..])
  }

  /** The idle loop after an interrupt: resume the lowest READY slot, if any. */
  function SUnpark(s: Sys): Sys
    requires SysOk(s)
  {
    match FirstReady(States(s.procs), 0)
    case Some(n) => s.(cur := n, idle := false)
    case None => s
  }

  // ---- System calls -----------------------------------------------------------

  function FirstEmpty(procs: seq<SProc>, from: nat): Option<nat>
    decreases |procs| - from
  {
    if from >= |procs| then None else if procs[from].state == EMPTY then Some(from) else FirstEmpty(procs, from + 1)
  }

  /** fork: the child is a full copy, told apart only by rax. */
  function SFork(s: Sys): Sys
    requires SysOk(s)
  {
    match FirstEmpty(s.procs, 0)
    case None => WithReg(s, RAX, MINUS_ONE)
    case Some(i) =>
      if i >= NPROC then s
      else
        var t := s.(procs := s.procs[i := SProc(READY, Me(s).pages, Me(s).regs[RAX := 0])]);
        WithReg(t, RAX, 1)
  }

  /** The code and stack pages and a 64 KiB heap. */
  const MAX_PAGES := 18

  function ZeroPages(n: nat): seq<Page> { seq(n, _ => ZeroPage()) }

  /** sbrk: the old break in rax; zero pages up to the new one unless it passes the cap. */
  function SSbrk(s: Sys): Outcome
    requires SysOk(s) && |Me(s).pages| <= MAX_PAGES
  {
    var p := Me(s);
    if p.regs[RDI] + 0xFFF >= WORD_LIMIT || p.Brk() + RoundUp(p.regs[RDI]) >= WORD_LIMIT then Stop
    else if p.Brk() + RoundUp(p.regs[RDI]) <= BRK_MAX then
      Go(WithMe(s, SProc(p.state, p.pages + ZeroPages(RoundUp(p.regs[RDI]) / PAGE_SIZE), p.regs[RAX := p.Brk()])))
    else Go(WithReg(s, RAX, p.Brk()))
  }

  function RoundUp(w: Word): nat { (w + 0xFFF) / PAGE_SIZE * PAGE_SIZE }

  /** read: a byte in rax, or wait with rip moved back over the two-byte trap. */
  function SRead(s: Sys): Outcome
    requires SysOk(s)
  {
    if s.input != [] then
      Go(WithReg(s, RAX, s.input[0] as int).(input := s.input[1..], delivered := s.delivered + [s.input[0]]))
    else if Me(s).regs[RIP] < 2 then Stop
    else SSwitch(WithMe(s, Me(s).(state := WAITING, regs := Me(s).regs[RIP := Me(s).regs[RIP] - 2])))
  }

  function SExit(s: Sys): Outcome
    requires SysOk(s)
  {
    SSwitch(WithMe(s, DEAD))
  }

  predicate StartsWith(page: Page, image: seq<Word>) { |image| <= |page| && page[..|image|] == image }

  /** exec: two pages, the image at the front of the first; the rest of both is not specified. */
  predicate SExec(s: Sys, image: seq<Word>, s': Sys)
    requires SysOk(s)
  {
    && SysOk(s') && s'.cur == s.cur
    && |Me(s').pages| == 2 && StartsWith(Me(s').pages[0], image)
    && s' == WithMe(s, SProc(Me(s).state, Me(s').pages, ENTRY_REGS))
  }

  // ---- Runs ---------------------------------------------------------------------

  /** What the file system answers a call with: a result for rax, or the image exec_file found. */
  datatype FileReply = FileReply(ret: Word, image: Option<seq<Word>>)

  datatype Event =
    | Load(va: Word)
    | Store(va: Word, w: Word)
    | Compute(regs: Regs)
    | TlbFill(va: Word)
    | TlbEvict(v: nat)
    | Trap(reply: FileReply)
    | Tick(bytes: seq<Byte>)
    | Device(b: Byte)

  datatype Obs = Value(w: Word) | Quiet

  /** The system calls other than exec, by number. */
  function SCall(s: Sys, n: Word, reply: FileReply): Outcome
    requires SysOk(s) && |Me(s).pages| <= MAX_PAGES
  {
    match n
    case 2 => SExit(s)
    case 3 => SSwitch(s)
    case 4 => Go(SFork(s))
    case 6 => SSbrk(s)
    case 7 => SRead(s)
    case 8 => Go(WithReg(s, RAX, reply.ret))
    case 9 => Go(WithReg(s, RAX, reply.ret))
    case 10 => Go(WithReg(s, RAX, reply.ret))
    case 11 => Go(WithReg(s, RAX, reply.ret))
    case 12 => Go(WithReg(s, RAX, MINUS_ONE))
    case 13 => Go(WithReg(s, RAX, reply.ret))
    case _ => Go(s)
  }

  /** The image a trap runs, if it is an exec that finds one. */
  function ExecImageOf(n: Word, progC: seq<Word>, reply: FileReply): Option<seq<Word>> {
    if n == 5 then Some(progC) else if n == 12 then reply.image else None
  }

  ghost predicate STrap(s: Sys, progC: seq<Word>, reply: FileReply, o: Outcome)
    requires SysOk(s) && |Me(s).pages| <= MAX_PAGES
  {
    var n := Me(s).regs[RAX];
    match ExecImageOf(n, progC, reply)
    case Some(image) => o.Go? && SExec(s, image, o.s)
    case None => o == SCall(s, n, reply)
  }

  /** One event of the eager-copy system.  Only interrupts reach a parked system. */
  ghost predicate SpecNext(s: Sys, progC: seq<Word>, e: Event, obs: Obs, o: Outcome)
    requires SysOk(s) && |Me(s).pages| <= MAX_PAGES
  {
    match e
    case Tick(bytes) =>
      obs == Quiet && o == if s.idle then Go(SUnpark(SInputs(s, bytes))) else SSwitch(SInputs(s, bytes))
    case Device(b) =>
      obs == Quiet && o == Go(if s.idle then SUnpark(SInput(s, b)) else SInput(s, b))
    case _ =>
      if s.idle then obs == Quiet && o == Go(s)
      else SpecRing3(s, progC, e, obs, o)
  }

  ghost predicate SpecRing3(s: Sys, progC: seq<Word>, e: Event, obs: Obs, o: Outcome)
    requires SysOk(s) && |Me(s).pages| <= MAX_PAGES
  {
    match e
    case Load(va) => if Mapped(Me(s), va) then obs == Value(SLoad(Me(s), va)) && o == Go(s) else o == Stop
    case Store(va, w) => if Mapped(Me(s), va) then obs == Quiet && o == Go(WithMe(s, SStore(Me(s), va, w))) else o == Stop
    case Compute(regs) => obs == Quiet && o == Go(WithMe(s, Me(s).(regs := regs)))
    case Trap(reply) => obs == Quiet && STrap(s, progC, reply, o)
    case _ => obs == Quiet && o == Go(s)
  }
}
