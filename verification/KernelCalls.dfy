// What each event of the eager-copy system does, call by call, in terms of the
// registers and addresses a program sees; by refinement, what every event of
// the kernel does.

module KernelCalls {
  import opened Options
  import opened PageTables
  import opened PhysMemory
  import opened RoundRobin
  import opened Input
  import opened KernelSpec
  import opened KernelRuns

  /** A running process made call n, and the system went on. */
  ghost predicate Called(s: Sys, progC: seq<Word>, reply: FileReply, obs: Obs, s': Sys, n: Word) {
    Bounded(s) && !s.idle && Me(s).regs[RAX] == n && SpecNext(s, progC, Trap(reply), obs, Go(s'))
  }

  /** Every process but p is as it was. */
  predicate OthersSame(s: Sys, s': Sys, p: nat) {
    |s'.procs| == |s.procs| && forall q | 0 <= q < |s.procs| && q != p :: s'.procs[q] == s.procs[q]
  }

  /** Nothing was taken from the input queue or put into it. */
  predicate InputSame(s: Sys, s': Sys) { s'.input == s.input && s'.accepted == s.accepted && s'.delivered == s.delivered }

  /** The caller goes on, with r for registers. */
  predicate Continues(s: Sys, s': Sys, r: Regs)
    requires SysOk(s)
  {
    SysOk(s') && s'.cur == s.cur && s'.idle == s.idle && OthersSame(s, s', s.cur) && InputSame(s, s') && Me(s').regs == r
  }

  /** Some process runs that is READY and not farther ahead of p than any other, or nobody is READY. */
  predicate Dispatched(s': Sys, p: nat) {
    && SysOk(s') && p < NPROC
    && (if s'.idle then (forall q | 0 <= q < NPROC :: s'.procs[q].state != READY) && (exists q :: 0 <= q < NPROC && s'.procs[q].state == WAITING)
        else Me(s').state == READY && forall q | 0 <= q < NPROC && s'.procs[q].state == READY :: Ahead(p, s'.cur) <= Ahead(p, q))
  }

  lemma SwitchMeans(s: Sys, s': Sys)
    requires SysOk(s) && !s.idle && SSwitch(s) == Go(s')
    ensures s'.procs == s.procs && InputSame(s, s') && Dispatched(s', s.cur)
  {
    StatesAt(s.procs);
    PickNearest(States(s.procs), s.cur);
  }

  /** The system stops exactly when nobody is READY and nobody waits. */
  lemma SwitchStops(s: Sys)
    requires SysOk(s) && !s.idle
    ensures SSwitch(s) == Stop <==> forall q | 0 <= q < NPROC :: s.procs[q].state == EMPTY
  {
    StatesAt(s.procs);
    PickNearest(States(s.procs), s.cur);
    hide Pick;
    if SSwitch(s) == Stop {
      forall q | 0 <= q < NPROC ensures s.procs[q].state == EMPTY {
        assert States(s.procs)[q] == s.procs[q].state;
      }
    }
  }

  // ---- read ------------------------------------------------------------------------------------

  /** read with nothing queued: the caller waits with its pages and registers as they were, but for rip,
      which is back at the two-byte trap instruction. */
  lemma ReadBlocks(s: Sys, progC: seq<Word>, reply: FileReply, obs: Obs, s': Sys)
    requires Called(s, progC, reply, obs, s', 7) && s.input == []
    ensures Me(s).regs[RIP] >= 2 && SysOk(s')
    ensures s'.procs[s.cur] == SProc(WAITING, Me(s).pages, Me(s).regs[RIP := Me(s).regs[RIP] - 2])
    ensures OthersSame(s, s', s.cur) && InputSame(s, s') && Dispatched(s', s.cur)
  {
    hide SSwitch;
    SwitchMeans(WithMe(s, SProc(WAITING, Me(s).pages, Me(s).regs[RIP := Me(s).regs[RIP] - 2])), s');
  }

  /** read with a byte queued: the oldest is in rax, and off the queue. */
  lemma ReadDelivers(s: Sys, progC: seq<Word>, reply: FileReply, obs: Obs, s': Sys)
    requires Called(s, progC, reply, obs, s', 7) && s.input != []
    ensures SysOk(s') && s'.cur == s.cur && !s'.idle && OthersSame(s, s', s.cur)
    ensures Me(s') == Me(s).(regs := Me(s).regs[RAX := s.input[0] as int])
    ensures s.input == [s.input[0]] + s'.input && s'.delivered == s.delivered + [s.input[0]] && s'.accepted == s.accepted
  {}

  /** At b process p runs, and executes the two-byte trap instruction it is at: rip moves past it and
      the trap follows. */
  ghost predicate Retried(trace: seq<Sys>, events: seq<Event>, p: nat, b: nat)
    requires |events| < |trace| && forall k | 0 <= k < |trace| :: SysOk(trace[k])
  {
    && b + 2 <= |events| && trace[b].cur == p && !trace[b].idle && events[b + 1].Trap?
    && events[b] == Compute(Me(trace[b]).regs[RIP := (Me(trace[b]).regs[RIP] + 2) % WORD_LIMIT])
  }

  /** While a blocked reader does not run its registers and pages keep; when it next runs, re-executing
      the trap makes the same call, and if a byte is queued by then it gets it. */
  lemma BlockedReadRepeats(trace: seq<Sys>, progC: seq<Word>, events: seq<Event>, obs: seq<Obs>, a: nat, b: nat)
    requires IsTrace(trace, progC, events, obs) && a < b <= |events|
    requires !trace[a].idle && events[a].Trap? && Me(trace[a]).regs[RAX] == 7 && trace[a].input == []
    requires forall k | a < k < b :: trace[k].cur != trace[a].cur || trace[k].idle
    ensures var p, before := trace[a].cur, Me(trace[a]);
      && before.regs[RIP] >= 2
      && trace[b].procs[p].pages == before.pages && trace[b].procs[p].regs == before.regs[RIP := before.regs[RIP] - 2]
    ensures Retried(trace, events, trace[a].cur, b) ==>
      && Me(trace[b + 1]).regs == Me(trace[a]).regs && Me(trace[b + 1]).regs[RAX] == 7 && trace[b + 1].cur == trace[a].cur
      && (trace[b].input != [] ==> Me(trace[b + 2]).regs == Me(trace[a]).regs[RAX := trace[b].input[0] as int]
                                   && trace[b + 2].cur == trace[a].cur)
  {
    hide SpecNext, Called, SSwitch;
    var s, p := trace[a], trace[a].cur;
    NextIs(trace, progC, events, obs, a);
    assert Called(s, progC, events[a].reply, obs[a], trace[a + 1], 7) by { CalledIs(s, progC, events[a].reply, obs[a], trace[a + 1], 7); }
    ReadBlocks(s, progC, events[a].reply, obs[a], trace[a + 1]);
    RunIsolated(trace, progC, events, obs, p, a + 1, b);
    if Retried(trace, events, p, b) {
      NextIs(trace, progC, events, obs, b);
      ComputeIs(trace[b], progC, events[b].regs, obs[b], trace[b + 1]);
      assert Me(trace[b + 1]).regs == s.procs[p].regs;
      if trace[b].input != [] {
        NextIs(trace, progC, events, obs, b + 1);
        CalledIs(trace[b + 1], progC, events[b + 1].reply, obs[b + 1], trace[b + 2], 7);
        ReadDelivers(trace[b + 1], progC, events[b + 1].reply, obs[b + 1], trace[b + 2]);
      }
    }
  }

  lemma NextIs(trace: seq<Sys>, progC: seq<Word>, events: seq<Event>, obs: seq<Obs>, k: nat)
    requires IsTrace(trace, progC, events, obs) && k < |events|
    ensures Bounded(trace[k]) && Bounded(trace[k + 1]) && SpecNext(trace[k], progC, events[k], obs[k], Go(trace[k + 1]))
  {
    hide SpecNext;
  }

  lemma CalledIs(s: Sys, progC: seq<Word>, reply: FileReply, obs: Obs, s': Sys, n: Word)
    requires Bounded(s) && !s.idle && Me(s).regs[RAX] == n && SpecNext(s, progC, Trap(reply), obs, Go(s'))
    ensures Called(s, progC, reply, obs, s', n)
  {
    hide SpecNext;
  }

  lemma ComputeIs(s: Sys, progC: seq<Word>, r: Regs, obs: Obs, s': Sys)
    requires Bounded(s) && !s.idle && SpecNext(s, progC, Compute(r), obs, Go(s'))
    ensures Continues(s, s', r) && Me(s').pages == Me(s).pages && Me(s').state == Me(s).state
  {}

  // ---- sbrk ------------------------------------------------------------------------------------

  /** Whole pages for n bytes. */
  function WholePages(n: Word): (up: nat)
    ensures up % 4096 == 0 && n <= up < n + 4096
  {
    var q := (n + 4095) / 4096;
    assert n + 4095 == 4096 * q + (n + 4095) % 4096;
    4096 * q
  }

  /** sbrk: rax is the first address that was not mapped.  If the request fits below the cap, exactly
      that many whole pages more are mapped from there on, and they read as zero; otherwise none is.
      Whatever was mapped keeps its contents, and no register but rax changes. */
  lemma SbrkMeans(s: Sys, progC: seq<Word>, reply: FileReply, obs: Obs, s': Sys)
    requires Called(s, progC, reply, obs, s', 6)
    ensures SysOk(s') && var top := Me(s').regs[RAX];
      && Continues(s, s', Me(s).regs[RAX := top]) && Me(s').state == Me(s).state
      && (forall va: Word :: Mapped(Me(s), va) <==> 0x4000_0000 <= va < top)
      && (forall va: Word | Mapped(Me(s), va) :: Mapped(Me(s'), va) && SLoad(Me(s'), va) == SLoad(Me(s), va))
      && (if top + WholePages(Me(s).regs[RDI]) <= 0x4001_2000 then
            && (forall va: Word :: Mapped(Me(s'), va) <==> 0x4000_0000 <= va < top + WholePages(Me(s).regs[RDI]))
            && (forall va: Word | top <= va < top + WholePages(Me(s).regs[RDI]) :: SLoad(Me(s'), va) == 0)
          else Me(s').pages == Me(s).pages)
  {
    hide SLoad;
    var up := WholePages(Me(s).regs[RDI]);
    assert up == RoundUp(Me(s).regs[RDI]) && up / 4096 * 4096 == up;
    if Me(s).Brk() + up <= BRK_MAX {
      SbrkPages(Me(s), Me(s'), up / 4096);
    } else {
      SamePages(Me(s), Me(s'));
    }
  }

  lemma SamePages(p: SProc, q: SProc)
    requires q.pages == p.pages
    ensures forall va: Word :: Mapped(q, va) <==> Mapped(p, va)
    ensures forall va: Word | Mapped(p, va) :: SLoad(q, va) == SLoad(p, va)
  {}

  /** sbrk stops the machine exactly when rounding the request up, or adding it to the break, overflows. */
  lemma SbrkStops(s: Sys, progC: seq<Word>, reply: FileReply)
    requires Bounded(s) && !s.idle && Me(s).regs[RAX] == 6
    ensures SpecNext(s, progC, Trap(reply), Quiet, Stop) <==>
              || Me(s).regs[RDI] > 0xFFFF_FFFF_FFFF_F000
              || WholePages(Me(s).regs[RDI]) + 0x4000_0000 + 4096 * |Me(s).pages| >= 0x1_0000_0000_0000_0000
  {
    assert WholePages(Me(s).regs[RDI]) == RoundUp(Me(s).regs[RDI]);
  }

  lemma SbrkPages(p: SProc, q: SProc, n: nat)
    requires q.pages == p.pages + ZeroPages(n)
    ensures forall va: Word | Mapped(p, va) :: Mapped(q, va) && SLoad(q, va) == SLoad(p, va)
    ensures forall va: Word :: Mapped(q, va) <==> 0x4000_0000 <= va < p.Brk() + 4096 * n
    ensures forall va: Word | p.Brk() <= va < p.Brk() + 4096 * n :: SLoad(q, va) == 0
  {
    forall va: Word | p.Brk() <= va < p.Brk() + 4096 * n ensures SLoad(q, va) == 0 {
      PageRange(va, |p.pages|, n);
    }
    forall va: Word | Mapped(p, va) ensures Mapped(q, va) && SLoad(q, va) == SLoad(p, va) {
      PageRange(va, 0, |p.pages|);
    }
  }

  lemma PageRange(va: Word, k: nat, n: nat)
    requires USER_CODE_VA + k * PAGE_SIZE <= va < USER_CODE_VA + (k + n) * PAGE_SIZE
    ensures k <= PageIx(va) < k + n
  {
    var d := va - USER_CODE_VA;
    assert d == PAGE_SIZE * (d / PAGE_SIZE) + d % PAGE_SIZE;
  }

  // ---- fork, exit, yield, exec -------------------------------------------------------------------

  /** c is the lowest free slot. */
  predicate LowestFree(s: Sys, c: nat)
    requires SysOk(s)
  {
    c < NPROC && s.procs[c].state == EMPTY && forall q | 0 <= q < c :: s.procs[q].state != EMPTY
  }

  /** fork: the lowest free slot gets the caller's pages and registers with 0 in rax, the caller 1 in
      rax, and nothing else changes; with no free slot the caller gets 2^64 - 1. */
  lemma ForkMeans(s: Sys, progC: seq<Word>, reply: FileReply, obs: Obs, s': Sys)
    requires Called(s, progC, reply, obs, s', 4) && Me(s).state == READY
    ensures SysOk(s') && s'.cur == s.cur && !s'.idle && InputSame(s, s')
    ensures forall c: nat | LowestFree(s, c) ::
      && c != s.cur && Me(s') == Me(s).(regs := Me(s).regs[RAX := 1])
      && s'.procs[c] == SProc(READY, Me(s).pages, Me(s).regs[RAX := 0])
      && forall q | 0 <= q < NPROC && q != c && q != s.cur :: s'.procs[q] == s.procs[q]
    ensures (forall q | 0 <= q < NPROC :: s.procs[q].state != EMPTY) ==>
      Me(s') == Me(s).(regs := Me(s).regs[RAX := 0xFFFF_FFFF_FFFF_FFFF]) && OthersSame(s, s', s.cur)
  {
    LowestIs(s);
  }

  lemma LowestIs(s: Sys)
    requires SysOk(s)
    ensures forall c: nat | LowestFree(s, c) :: FirstEmpty(s.procs, 0) == Some(c)
    ensures (forall q | 0 <= q < NPROC :: s.procs[q].state != EMPTY) ==> FirstEmpty(s.procs, 0) == None
  {
    forall c: nat | LowestFree(s, c) ensures FirstEmpty(s.procs, 0) == Some(c) {
      NoneBefore(s.procs, 0, c);
    }
    FirstEmptyFacts(s.procs, 0);
  }

  lemma {:induction false} NoneBefore(procs: seq<SProc>, from: nat, c: nat)
    requires from <= c < |procs| && procs[c].state == EMPTY && forall q | from <= q < c :: procs[q].state != EMPTY
    ensures FirstEmpty(procs, from) == Some(c)
    decreases c - from
  {
    if from < c {
      NoneBefore(procs, from + 1, c);
    }
  }

  /** exit: the caller's slot is free and the next process runs; nothing else changes. */
  lemma ExitMeans(s: Sys, progC: seq<Word>, reply: FileReply, obs: Obs, s': Sys)
    requires Called(s, progC, reply, obs, s', 2)
    ensures SysOk(s') && s'.procs[s.cur].state == EMPTY && OthersSame(s, s', s.cur) && InputSame(s, s') && Dispatched(s', s.cur)
  {
    hide SSwitch;
    SwitchMeans(WithMe(s, DEAD), s');
  }

  /** The machine stops at an exit exactly when that was the last process. */
  lemma ExitStops(s: Sys, progC: seq<Word>, reply: FileReply)
    requires Bounded(s) && !s.idle && Me(s).regs[RAX] == 2
    ensures SpecNext(s, progC, Trap(reply), Quiet, Stop) <==> forall q | 0 <= q < NPROC && q != s.cur :: s.procs[q].state == EMPTY
  {
    hide SSwitch;
    var t := WithMe(s, DEAD);
    SwitchStops(t);
    assert t.procs[s.cur].state == EMPTY && forall q | 0 <= q < NPROC && q != s.cur :: t.procs[q] == s.procs[q];
  }

  /** yield: nothing changes but who runs. */
  lemma YieldMeans(s: Sys, progC: seq<Word>, reply: FileReply, obs: Obs, s': Sys)
    requires Called(s, progC, reply, obs, s', 3)
    ensures s'.procs == s.procs && InputSame(s, s') && Dispatched(s', s.cur)
  {
    hide SSwitch;
    SwitchMeans(s, s');
  }

  /** exec, and exec_file when the file is there: the caller is a program freshly loaded, with a page
      that begins with the image, a stack page, and the registers of a process that never ran. */
  lemma ExecMeans(s: Sys, progC: seq<Word>, reply: FileReply, obs: Obs, s': Sys, image: seq<Word>)
    requires (Called(s, progC, reply, obs, s', 5) && image == progC) || (Called(s, progC, reply, obs, s', 12) && reply.image == Some(image))
    ensures SysOk(s') && s'.cur == s.cur && !s'.idle && OthersSame(s, s', s.cur) && InputSame(s, s')
    ensures Me(s').state == Me(s).state && |Me(s').pages| == 2
    ensures |image| <= 512 && forall k | 0 <= k < |image| :: Me(s').pages[0][k] == image[k]
    ensures Me(s').regs == [0, 0, 0, 0, 0, 0, 0, 0, 0, 0, 0, 0, 0, 0, 0, 0x4000_0000, 0x23, 0x202, 0x4000_2000, 0x1B]
  {
    assert forall k | 0 <= k < |image| :: Me(s').pages[0][..|image|][k] == Me(s').pages[0][k];
  }

  /** The other calls: the file calls put their result in rax, exec_file of no file -1, and a number
      that is no call (or write_char) changes nothing. */
  lemma OtherCalls(s: Sys, progC: seq<Word>, reply: FileReply, obs: Obs, s': Sys, n: Word)
    requires Called(s, progC, reply, obs, s', n)
    ensures n in {8, 9, 10, 11, 13} ==> s' == WithMe(s, Me(s).(regs := Me(s).regs[RAX := reply.ret]))
    ensures n == 12 && reply.image == None ==> s' == WithMe(s, Me(s).(regs := Me(s).regs[RAX := 0xFFFF_FFFF_FFFF_FFFF]))
    ensures n <= 1 || n >= 14 ==> s' == s
  {}

  // ---- Which traps stop the machine ----------------------------------------------------------------

  /** The caller is the last process and exits, asks sbrk for more than 64 bits hold, or blocks with rip
      below 2. */
  predicate Fatal(s: Sys)
    requires SysOk(s)
  {
    var p := Me(s);
    || (p.regs[RAX] == 2 && forall q | 0 <= q < NPROC && q != s.cur :: s.procs[q].state == EMPTY)
    || (p.regs[RAX] == 6 && (p.regs[RDI] > 0xFFFF_FFFF_FFFF_F000
                             || WholePages(p.regs[RDI]) + 0x4000_0000 + 4096 * |p.pages| >= 0x1_0000_0000_0000_0000))
    || (p.regs[RAX] == 7 && s.input == [] && p.regs[RIP] < 2)
  }

  /** In every state of a run a trap stops the machine exactly for those reasons. */
  lemma TrapStops(s: Sys, progC: seq<Word>, reply: FileReply)
    requires Bounded(s) && RunnerReady(s) && !s.idle
    ensures SpecNext(s, progC, Trap(reply), Quiet, Stop) <==> Fatal(s)
  {
    hide SSwitch, SSbrk;
    var n := Me(s).regs[RAX];
    if n == 2 {
      ExitStops(s, progC, reply);
    } else if n == 3 {
      SwitchStops(s);
    } else if n == 6 {
      SbrkStops(s, progC, reply);
    } else if n == 7 && s.input == [] && Me(s).regs[RIP] >= 2 {
      var t := WithMe(s, SProc(WAITING, Me(s).pages, Me(s).regs[RIP := Me(s).regs[RIP] - 2]));
      SwitchStops(t);
      assert t.procs[s.cur].state == WAITING;
    }
  }

  /** Every other trap goes on, an exec if its image fits a page. */
  lemma TrapGoes(s: Sys, progC: seq<Word>, reply: FileReply)
    requires Bounded(s) && RunnerReady(s) && !s.idle && !Fatal(s)
    requires Me(s).regs[RAX] == 5 ==> |progC| <= 512
    requires Me(s).regs[RAX] == 12 && reply.image.Some? ==> |reply.image.value| <= 512
    ensures exists t :: SpecNext(s, progC, Trap(reply), Quiet, Go(t))
  {
    hide SCall, SExec, Fatal;
    TrapStops(s, progC, reply);
    var n := Me(s).regs[RAX];
    match ExecImageOf(n, progC, reply) {
      case Some(image) =>
        var t := ExecResult(s, image);
        assert SpecNext(s, progC, Trap(reply), Quiet, Go(t));
      case None =>
        var t := SCall(s, n, reply).s;
        assert SpecNext(s, progC, Trap(reply), Quiet, Go(t));
    }
  }

  lemma ExecResult(s: Sys, image: seq<Word>) returns (t: Sys)
    requires SysOk(s) && |image| <= 512
    ensures SExec(s, image, t)
  {
    var page: Page := image + seq(512 - |image|, _ => 0);
    t := WithMe(s, SProc(Me(s).state, [page, ZeroPage()], ENTRY_REGS));
    assert page[..|image|] == image;
  }

  /** A tick and a device interrupt always go on. */
  lemma InterruptsGo(s: Sys, progC: seq<Word>, bytes: seq<Byte>, b: Byte)
    requires Bounded(s) && RunnerReady(s)
    ensures exists t :: SpecNext(s, progC, Tick(bytes), Quiet, Go(t))
    ensures exists t :: SpecNext(s, progC, Device(b), Quiet, Go(t))
  {
    hide SSwitch, SUnpark;
    var t := SInputs(s, bytes);
    InputsUntouched(s, bytes, s.cur);
    if s.idle {
      assert SpecNext(s, progC, Tick(bytes), Quiet, Go(SUnpark(t)));
      assert SpecNext(s, progC, Device(b), Quiet, Go(SUnpark(SInput(s, b))));
    } else {
      SwitchStops(t);
      assert SpecNext(s, progC, Tick(bytes), Quiet, Go(SSwitch(t).s));
      assert SpecNext(s, progC, Device(b), Quiet, Go(SInput(s, b)));
    }
  }

  // ---- Device input and ticks -----------------------------------------------------------------------

  /** Device bytes are queued in order as far as 64 fit; one byte is enough to wake every waiting process. */
  predicate Received(s: Sys, t: Sys, bytes: seq<Byte>)
    requires SysOk(s)
  {
    && |s.input| <= 64
    && var n := if |bytes| <= 64 - |s.input| then |bytes| else 64 - |s.input|;
    && t.input == s.input + bytes[..n] && t.accepted == s.accepted + bytes[..n] && t.delivered == s.delivered
    && |t.procs| == NPROC
    && forall q | 0 <= q < NPROC ::
         t.procs[q] == if bytes != [] && s.procs[q].state == WAITING then s.procs[q].(state := READY) else s.procs[q]
  }

  lemma {:induction false} InputsMean(s: Sys, bytes: seq<Byte>)
    requires SysOk(s) && |s.input| <= 64
    ensures Received(s, SInputs(s, bytes), bytes)
    ensures SInputs(s, bytes).cur == s.cur && SInputs(s, bytes).idle == s.idle
    decreases |bytes|
  {
    hide SInput, Received;
    if bytes == [] {
      assert SInputs(s, bytes) == s;
      NoneReceived(s);
    } else {
      var t := SInput(s, bytes[0]);
      OneReceived(s, bytes[0]);
      assert |t.input| <= 64 by { QueueBound(s, t, [bytes[0]]); }
      InputsMean(t, bytes[1..]);
      ReceivedMore(s, t, SInputs(t, bytes[1..]), bytes);
    }
  }

  lemma NoneReceived(s: Sys)
    requires SysOk(s) && |s.input| <= 64
    ensures Received(s, s, [])
  {}

  lemma QueueBound(s: Sys, t: Sys, bytes: seq<Byte>)
    requires SysOk(s) && Received(s, t, bytes)
    ensures |t.input| <= 64
  {}

  lemma OneReceived(s: Sys, b: Byte)
    requires SysOk(s) && |s.input| <= 64
    ensures SysOk(SInput(s, b)) && Received(s, SInput(s, b), [b])
    ensures SInput(s, b).cur == s.cur && SInput(s, b).idle == s.idle
  {
    var t := SInput(s, b);
    assert [b][..1] == [b] && [b][..0] == [];
    forall q | 0 <= q < NPROC ensures t.procs[q] == Woken(s.procs[q]) {}
  }

  /** The first byte, then the rest. */
  lemma ReceivedMore(s: Sys, t: Sys, u: Sys, bytes: seq<Byte>)
    requires SysOk(s) && SysOk(t) && bytes != [] && Received(s, t, [bytes[0]]) && Received(t, u, bytes[1..])
    ensures Received(s, u, bytes)
  {
    Prefixes(s.input, t.input, u.input, s.accepted, t.accepted, u.accepted, bytes);
  }

  lemma Prefixes(q: seq<Byte>, q1: seq<Byte>, q2: seq<Byte>, a: seq<Byte>, a1: seq<Byte>, a2: seq<Byte>, bytes: seq<Byte>)
    requires |q| <= 64 && bytes != []
    requires q1 == (if |q| < 64 then q + [bytes[0]] else q) && a1 == if |q| < 64 then a + [bytes[0]] else a
    requires var n := if |bytes[1..]| <= 64 - |q1| then |bytes[1..]| else 64 - |q1|; q2 == q1 + bytes[1..][..n] && a2 == a1 + bytes[1..][..n]
    ensures var n := if |bytes| <= 64 - |q| then |bytes| else 64 - |q|; q2 == q + bytes[..n] && a2 == a + bytes[..n]
  {
    var n := if |bytes| <= 64 - |q| then |bytes| else 64 - |q|;
    if |q| < 64 {
      FirstThenRest(q, bytes, n);
      FirstThenRest(a, bytes, n);
    } else {
      assert bytes[..n] == [] && bytes[1..][..0] == [];
    }
  }

  lemma FirstThenRest(q: seq<Byte>, bytes: seq<Byte>, n: nat)
    requires 0 < n <= |bytes|
    ensures q + [bytes[0]] + bytes[1..][..n - 1] == q + bytes[..n]
  {
    assert bytes[..n] == [bytes[0]] + bytes[1..][..n - 1];
  }

  /** After an interrupt a parked system resumes the lowest READY slot, or stays parked if there is none. */
  predicate Resumed(t: Sys) {
    && SysOk(t)
    && (if t.idle then forall q | 0 <= q < NPROC :: t.procs[q].state != READY
        else Me(t).state == READY && forall q | 0 <= q < t.cur :: t.procs[q].state != READY)
  }

  lemma UnparkMeans(s: Sys)
    requires SysOk(s) && s.idle
    ensures var t := SUnpark(s);
      Resumed(t) && t.procs == s.procs && t.input == s.input && t.accepted == s.accepted && t.delivered == s.delivered
  {
    StatesAt(s.procs);
    LowestReady(States(s.procs), 0);
    hide States, FirstReady;
  }

  lemma {:induction false} LowestReady(states: seq<PState>, from: nat)
    requires |states| == NPROC && from <= NPROC
    ensures match FirstReady(states, from)
            case Some(n) => from <= n < NPROC && states[n] == READY && forall q | from <= q < n :: states[q] != READY
            case None => forall q | from <= q < NPROC :: states[q] != READY
    decreases NPROC - from
  {
    if from < NPROC && states[from] != READY {
      LowestReady(states, from + 1);
    }
  }

  /** A tick: the bytes the UART held are received, and the next process runs. */
  lemma TickMeans(s: Sys, progC: seq<Word>, bytes: seq<Byte>, obs: Obs, s': Sys)
    requires Bounded(s) && |s.input| <= 64 && SpecNext(s, progC, Tick(bytes), obs, Go(s'))
    ensures Received(s, s', bytes)
    ensures if s.idle then Resumed(s') else Dispatched(s', s.cur)
  {
    hide SSwitch, SUnpark, SInputs, Dispatched, Resumed;
    InputsMean(s, bytes);
    if s.idle {
      UnparkMeans(SInputs(s, bytes));
    } else {
      SwitchMeans(SInputs(s, bytes), s');
    }
  }

  /** A device interrupt: its byte is received, and whoever runs goes on. */
  lemma DeviceMeans(s: Sys, progC: seq<Word>, b: Byte, obs: Obs, s': Sys)
    requires Bounded(s) && |s.input| <= 64 && SpecNext(s, progC, Device(b), obs, Go(s'))
    ensures Received(s, s', [b])
    ensures if s.idle then Resumed(s') else s'.cur == s.cur && !s'.idle
  {
    hide SUnpark, Resumed;
    OneReceived(s, b);
    if s.idle {
      UnparkMeans(SInput(s, b));
    }
  }

  // ---- Loads and stores --------------------------------------------------------------------------------

  /** An access stops the machine exactly when it is below the code page or not below the break. */
  lemma AccessStops(s: Sys, progC: seq<Word>, va: Word, w: Word)
    requires Bounded(s) && !s.idle
    ensures SpecNext(s, progC, Load(va), Quiet, Stop) <==> !(0x4000_0000 <= va < 0x4000_0000 + 4096 * |Me(s).pages|)
    ensures SpecNext(s, progC, Store(va, w), Quiet, Stop) <==> !(0x4000_0000 <= va < 0x4000_0000 + 4096 * |Me(s).pages|)
  {
    hide SLoad, SStore;
  }

  /** After a store every load gives the word stored, if it is of the same aligned word, and what it
      gave before otherwise; nothing but that word of the caller's memory changes. */
  lemma StoreThenLoad(s: Sys, progC: seq<Word>, va: Word, w: Word, obs: Obs, t: Sys, vb: Word, obs': Obs, t': Sys)
    requires Bounded(s) && !s.idle && SpecNext(s, progC, Store(va, w), obs, Go(t))
    requires Bounded(t) && SpecNext(t, progC, Load(vb), obs', Go(t'))
    ensures Continues(s, t, Me(s).regs) && Me(t).state == Me(s).state && |Me(t).pages| == |Me(s).pages| && t' == t
    ensures if vb / 8 == va / 8 then obs' == Value(w) else SpecNext(s, progC, Load(vb), obs', Go(s))
  {
    SameWord(va, vb);
  }

  /** Two addresses of user space are of the same page and the same word in it exactly when they are
      of the same aligned word. */
  lemma SameWord(va: Word, vb: Word)
    requires va >= 0x4000_0000 && vb >= 0x4000_0000
    ensures PageIx(va) == PageIx(vb) && WordIx(va) == WordIx(vb) <==> va / 8 == vb / 8
  {
    WordOf(va);
    WordOf(vb);
  }

  lemma WordOf(va: Word)
    requires va >= 0x4000_0000
    ensures 0 <= WordIx(va) < 512 && va / 8 == 512 * PageIx(va) + WordIx(va) + 0x800_0000
  {
    var d := va - 0x4000_0000;
    assert va == 4096 * (va / 4096) + va % 4096;
    assert d / 4096 == va / 4096 - 0x4_0000;
    assert va % 4096 == 8 * (va % 4096 / 8) + va % 4096 % 8;
    assert va == 8 * (512 * (va / 4096) + va % 4096 / 8) + va % 4096 % 8;
  }
}
