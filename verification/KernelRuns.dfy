// What follows for whole runs of the eager-copy system, and so for every run
// of the kernel that refines it.

module KernelRuns {
  import opened Options
  import opened PageTables
  import opened RoundRobin
  import opened Input
  import opened KernelSpec

  ghost predicate Bounded(s: Sys) { SysOk(s) && |Me(s).pages| <= MAX_PAGES }

  /** A run: consecutive abstract states, one event apart. */
  ghost predicate IsTrace(trace: seq<Sys>, progC: seq<Word>, events: seq<Event>, obs: seq<Obs>) {
    && |trace| == |events| + 1 == |obs| + 1
    && (forall k | 0 <= k < |trace| :: Bounded(trace[k]))
    && forall k | 0 <= k < |events| :: SpecNext(trace[k], progC, events[k], obs[k], Go(trace[k + 1]))
  }

  // ---- Isolation ------------------------------------------------------------------

  /** Live process p keeps its memory and registers; at most it is woken. */
  predicate Untouched(s: Sys, s': Sys, p: nat)
    requires SysOk(s) && p < NPROC
  {
    |s'.procs| == NPROC && (s.procs[p].state != EMPTY ==> s'.procs[p] in {s.procs[p], Woken(s.procs[p])})
  }

  lemma {:induction false} InputsUntouched(s: Sys, bytes: seq<Byte>, p: nat)
    requires SysOk(s) && p < NPROC
    ensures Untouched(s, SInputs(s, bytes), p) && SInputs(s, bytes).cur == s.cur && SInputs(s, bytes).idle == s.idle
    decreases |bytes|
  {
    if bytes != [] {
      assert SInput(s, bytes[0]).procs[p] == Woken(s.procs[p]);
      InputsUntouched(SInput(s, bytes[0]), bytes[1..], p);
    }
  }

  /** An event never changes the memory or registers of a process that is not current. */
  lemma StepIsolated(s: Sys, progC: seq<Word>, e: Event, obs: Obs, s': Sys, p: nat)
    requires Bounded(s) && SpecNext(s, progC, e, obs, Go(s')) && p < NPROC && (p != s.cur || s.idle)
    ensures Untouched(s, s', p)
  {
    match e {
      case Tick(bytes) => InputsUntouched(s, bytes, p);
      case Device(b) => assert SInput(s, b).procs[p] == Woken(s.procs[p]);
      case Trap(reply) =>
        if !s.idle { TrapIsolated(s, progC, reply, s', p); }
      case _ =>
    }
  }

  lemma TrapIsolated(s: Sys, progC: seq<Word>, reply: FileReply, s': Sys, p: nat)
    requires Bounded(s) && STrap(s, progC, reply, Go(s')) && p < NPROC && p != s.cur
    ensures Untouched(s, s', p)
  {
    hide Pick, AnyWaiting, RoundUp;
    var n := Me(s).regs[RAX];
    if n == 4 {
      FirstEmptyFacts(s.procs, 0);
    }
  }

  lemma {:induction false} FirstEmptyFacts(procs: seq<SProc>, from: nat)
    ensures match FirstEmpty(procs, from)
            case Some(i) => from <= i < |procs| && procs[i].state == EMPTY
            case None => forall k | from <= k < |procs| :: procs[k].state != EMPTY
    decreases |procs| - from
  {
    if from < |procs| && procs[from].state != EMPTY {
      FirstEmptyFacts(procs, from + 1);
    }
  }

  /** Over any stretch of a run in which p is live and never current, its memory and
      registers stay exactly as they were: no other process's stores, forks or execs show. */
  lemma {:induction false} RunIsolated(trace: seq<Sys>, progC: seq<Word>, events: seq<Event>, obs: seq<Obs>, p: nat, a: nat, b: nat)
    requires IsTrace(trace, progC, events, obs) && p < NPROC && a <= b <= |events|
    requires trace[a].procs[p].state != EMPTY
    requires forall k | a <= k < b :: trace[k].cur != p || trace[k].idle
    ensures trace[b].procs[p].pages == trace[a].procs[p].pages
    ensures trace[b].procs[p].regs == trace[a].procs[p].regs && trace[b].procs[p].state != EMPTY
    decreases b - a
  {
    if a < b {
      StepIsolated(trace[a], progC, events[a], obs[a], trace[a + 1], p);
      RunIsolated(trace, progC, events, obs, p, a + 1, b);
    }
  }

  /** fork, then anything else: until the child runs, it holds the memory the parent had at
      the fork and the parent's registers with rax 0, whatever the parent stores meanwhile. */
  lemma ForkedCopyKept(trace: seq<Sys>, progC: seq<Word>, events: seq<Event>, obs: seq<Obs>, a: nat, b: nat, child: nat)
    requires IsTrace(trace, progC, events, obs) && a < b <= |events|
    requires !trace[a].idle && events[a].Trap? && Me(trace[a]).regs[RAX] == 4
    requires FirstEmpty(trace[a].procs, 0) == Some(child) && Me(trace[a]).state == READY
    requires forall k | a < k < b :: trace[k].cur != child || trace[k].idle
    ensures child < NPROC && child != trace[a].cur
    ensures trace[b].procs[child].pages == Me(trace[a]).pages
    ensures trace[b].procs[child].regs == Me(trace[a]).regs[RAX := 0]
    ensures trace[a + 1].cur == trace[a].cur && Me(trace[a + 1]) == Me(trace[a]).(regs := Me(trace[a]).regs[RAX := 1])
  {
    var s := trace[a];
    FirstEmptyFacts(s.procs, 0);
    assert SpecNext(s, progC, events[a], obs[a], Go(trace[a + 1]));
    assert trace[a + 1] == SFork(s);
    RunIsolated(trace, progC, events, obs, child, a + 1, b);
  }

  // ---- Blocking input -----------------------------------------------------------

  /** Accepted bytes are the delivered ones followed by the queue; nobody waits beside a byte. */
  ghost predicate InputOk(s: Sys) {
    && s.accepted == s.delivered + s.input && |s.input| <= CAP
    && (AnyWaiting(s.procs) ==> s.input == [])
  }

  lemma NoneWaiting(procs: seq<SProc>)
    requires forall k | 0 <= k < |procs| :: procs[k].state != WAITING
    ensures !AnyWaiting(procs)
  {}

  lemma {:induction false} InputsOk(s: Sys, bytes: seq<Byte>)
    requires SysOk(s) && InputOk(s)
    ensures InputOk(SInputs(s, bytes)) && SInputs(s, bytes).delivered == s.delivered
    decreases |bytes|
  {
    if bytes != [] {
      OneInputOk(s, bytes[0]);
      InputsOk(SInput(s, bytes[0]), bytes[1..]);
    }
  }

  lemma OneInputOk(s: Sys, b: Byte)
    requires SysOk(s) && InputOk(s)
    ensures InputOk(SInput(s, b))
  {
    NoneWaiting(SInput(s, b).procs);
  }

  /** A step hands out at most one byte: the oldest, to the current process, in rax. */
  predicate Delivers(s: Sys, s': Sys)
    requires SysOk(s)
  {
    || s'.delivered == s.delivered
    || (s.input != [] && s'.delivered == s.delivered + [s.input[0]] && s'.input == s.input[1..]
        && s' == WithReg(s, RAX, s.input[0] as int).(input := s'.input, delivered := s'.delivered))
  }

  lemma SwitchInputOk(s: Sys, s': Sys)
    requires SysOk(s) && SSwitch(s) == Go(s')
    ensures s'.procs == s.procs && s'.input == s.input && s'.accepted == s.accepted && s'.delivered == s.delivered
  {}

  /** Replacing the current process by one that does not wait makes nobody wait. */
  lemma StillNotWaiting(procs: seq<SProc>, k: nat, p: SProc)
    requires k < |procs| && p.state != WAITING
    ensures AnyWaiting(procs[k := p]) ==> AnyWaiting(procs)
  {
    if AnyWaiting(procs[k := p]) {
      var w :| 0 <= w < |procs| && procs[k := p][w].state == WAITING;
      assert procs[w].state == WAITING;
    }
  }

  /** No lost wakeup and no lost, doubled or reordered byte, in any step. */
  lemma StepInputOk(s: Sys, progC: seq<Word>, e: Event, obs: Obs, s': Sys)
    requires Bounded(s) && InputOk(s) && (!s.idle ==> Me(s).state == READY)
    requires SpecNext(s, progC, e, obs, Go(s'))
    ensures InputOk(s') && Delivers(s, s')
  {
    hide Pick, FirstReady, RoundUp, AnyWaiting;
    match e {
      case Tick(bytes) =>
        InputsOk(s, bytes);
        if !s.idle { SwitchInputOk(SInputs(s, bytes), s'); }
      case Device(b) => OneInputOk(s, b);
      case Trap(reply) =>
        if !s.idle { TrapInputOk(s, progC, reply, s'); }
      case Store(va, w) =>
        if !s.idle { StillNotWaiting(s.procs, s.cur, SStore(Me(s), va, w)); }
      case Compute(regs) =>
        if !s.idle { StillNotWaiting(s.procs, s.cur, Me(s).(regs := regs)); }
      case _ =>
    }
  }

  lemma TrapInputOk(s: Sys, progC: seq<Word>, reply: FileReply, s': Sys)
    requires Bounded(s) && InputOk(s) && Me(s).state == READY && STrap(s, progC, reply, Go(s'))
    ensures InputOk(s') && Delivers(s, s')
  {
    hide Pick, RoundUp, AnyWaiting, FirstEmpty, SSwitch;
    var n := Me(s).regs[RAX];
    forall p: SProc | p.state != WAITING
      ensures AnyWaiting(s.procs[s.cur := p]) ==> AnyWaiting(s.procs)
    {
      StillNotWaiting(s.procs, s.cur, p);
    }
    match ExecImageOf(n, progC, reply)
    case Some(image) =>
    case None =>
      match n {
        case 2 => SwitchInputOk(WithMe(s, DEAD), s');
        case 3 => SwitchInputOk(s, s');
        case 4 => ForkInputOk(s);
        case 7 => ReadInputOk(s, s');
        case _ =>
      }
  }

  lemma ForkInputOk(s: Sys)
    requires SysOk(s) && Me(s).state == READY
    ensures var t := SFork(s);
      && t.input == s.input && t.accepted == s.accepted && t.delivered == s.delivered
      && (AnyWaiting(t.procs) ==> AnyWaiting(s.procs))
  {
    FirstEmptyFacts(s.procs, 0);
    if AnyWaiting(SFork(s).procs) {
      var w :| 0 <= w < NPROC && SFork(s).procs[w].state == WAITING;
      assert s.procs[w].state == WAITING;
    }
  }

  lemma ReadInputOk(s: Sys, s': Sys)
    requires SysOk(s) && InputOk(s) && Me(s).state == READY && SRead(s) == Go(s')
    ensures InputOk(s') && Delivers(s, s')
  {
    hide SSwitch, AnyWaiting;
    if s.input != [] {
      StillNotWaiting(s.procs, s.cur, Me(s).(regs := Me(s).regs[RAX := s.input[0] as int]));
      assert s.delivered + s.input == s.delivered + [s.input[0]] + s.input[1..];
    } else {
      SwitchInputOk(WithMe(s, Me(s).(state := WAITING, regs := Me(s).regs[RIP := Me(s).regs[RIP] - 2])), s');
    }
  }

  // ---- Whole runs of the input path --------------------------------------------------

  /** Whoever runs is READY. */
  predicate RunnerReady(s: Sys) { SysOk(s) && (!s.idle ==> Me(s).state == READY) }

  lemma SwitchReady(s: Sys, s': Sys)
    requires SysOk(s) && !s.idle && SSwitch(s) == Go(s')
    ensures RunnerReady(s')
  {
    PickNearest(States(s.procs), s.cur);
  }

  lemma {:induction false} FirstReadyIs(states: seq<PState>, from: nat)
    requires |states| == NPROC
    ensures FirstReady(states, from).Some? ==>
      FirstReady(states, from).value < NPROC && states[FirstReady(states, from).value] == READY
    decreases NPROC - from
  {
    if from < NPROC && states[from] != READY {
      FirstReadyIs(states, from + 1);
    }
  }

  lemma UnparkReady(s: Sys)
    requires SysOk(s) && s.idle
    ensures RunnerReady(SUnpark(s))
  {
    FirstReadyIs(States(s.procs), 0);
  }

  lemma StepReady(s: Sys, progC: seq<Word>, e: Event, obs: Obs, s': Sys)
    requires Bounded(s) && RunnerReady(s) && SpecNext(s, progC, e, obs, Go(s'))
    ensures RunnerReady(s')
  {
    hide Pick, FirstReady, SSwitch, SUnpark;
    match e {
      case Tick(bytes) =>
        InputsUntouched(s, bytes, s.cur);
        if s.idle { UnparkReady(SInputs(s, bytes)); } else { SwitchReady(SInputs(s, bytes), s'); }
      case Device(b) =>
        assert SInput(s, b).procs[s.cur] == Woken(s.procs[s.cur]);
        if s.idle { UnparkReady(SInput(s, b)); }
      case Trap(reply) =>
        if !s.idle { TrapReady(s, progC, reply, s'); }
      case _ =>
    }
  }

  lemma TrapReady(s: Sys, progC: seq<Word>, reply: FileReply, s': Sys)
    requires Bounded(s) && RunnerReady(s) && !s.idle && STrap(s, progC, reply, Go(s'))
    ensures RunnerReady(s')
  {
    hide SSwitch, RoundUp, FirstEmpty;
    var n := Me(s).regs[RAX];
    match ExecImageOf(n, progC, reply)
    case Some(image) =>
    case None =>
      match n {
        case 2 => SwitchReady(WithMe(s, DEAD), s');
        case 3 => SwitchReady(s, s');
        case 4 => FirstEmptyFacts(s.procs, 0);
        case 7 =>
          if s.input == [] {
            SwitchReady(WithMe(s, Me(s).(state := WAITING, regs := Me(s).regs[RIP := Me(s).regs[RIP] - 2])), s');
          }
        case _ =>
      }
  }

  /** Over a whole run from a state that meets it, in every state nobody waits beside a queued byte,
      accepted bytes are delivered bytes followed by the queue, and what was delivered stays a
      prefix: no byte is lost, doubled or reordered. */
  lemma {:induction false} RunInputOk(trace: seq<Sys>, progC: seq<Word>, events: seq<Event>, obs: seq<Obs>, b: nat)
    requires IsTrace(trace, progC, events, obs) && b <= |events|
    requires InputOk(trace[0]) && RunnerReady(trace[0])
    ensures InputOk(trace[b]) && RunnerReady(trace[b]) && trace[0].delivered <= trace[b].delivered
    decreases b
  {
    hide SpecNext, InputOk, RunnerReady;
    if b > 0 {
      var a := b - 1;
      RunInputOk(trace, progC, events, obs, a);
      assert SpecNext(trace[a], progC, events[a], obs[a], Go(trace[a + 1]));
      StepReady(trace[a], progC, events[a], obs[a], trace[b]);
      assert !trace[a].idle ==> Me(trace[a]).state == READY by { RunnerIs(trace[a]); }
      StepInputOk(trace[a], progC, events[a], obs[a], trace[b]);
    }
  }

  lemma RunnerIs(s: Sys)
    requires RunnerReady(s)
    ensures SysOk(s) && (!s.idle ==> Me(s).state == READY)
  {}

  // ---- Fairness -----------------------------------------------------------------------

  /** The system is parked only while nobody can run. */
  predicate Settled(s: Sys) { SysOk(s) && (s.idle ==> forall p | 0 <= p < NPROC :: s.procs[p].state != READY) }

  /** The events on which the kernel calls schedule: a tick, exit, yield, and a read that blocks. */
  predicate Switches(s: Sys, e: Event)
    requires SysOk(s)
  {
    && !s.idle
    && match e
       case Tick(_) => true
       case Trap(_) => Me(s).regs[RAX] == 2 || Me(s).regs[RAX] == 3 || (Me(s).regs[RAX] == 7 && s.input == [])
       case _ => false
  }

  lemma StatesAt(procs: seq<SProc>)
    requires |procs| == NPROC
    ensures |States(procs)| == NPROC && forall p | 0 <= p < NPROC :: States(procs)[p] == procs[p].state
  {}

  /** What schedule decides is the nearest READY slot among the processes it leaves behind. */
  lemma SwitchPicks(s: Sys, s': Sys)
    requires SysOk(s) && !s.idle && SSwitch(s) == Go(s')
    ensures s'.procs == s.procs && Settled(s')
    ensures !s'.idle ==> |States(s'.procs)| == NPROC && Pick(States(s'.procs), s.cur) == Some(s'.cur)
  {
    StatesAt(s.procs);
    PickNearest(States(s.procs), s.cur);
  }

  lemma {:induction false} FirstReadyNone(states: seq<PState>, from: nat)
    requires |states| == NPROC && FirstReady(states, from) == None
    ensures forall p | from <= p < NPROC :: states[p] != READY
    decreases NPROC - from
  {
    if from < NPROC {
      FirstReadyNone(states, from + 1);
    }
  }

  lemma UnparkSettled(s: Sys)
    requires SysOk(s) && s.idle
    ensures Settled(SUnpark(s))
  {
    StatesAt(s.procs);
    FirstReadyIs(States(s.procs), 0);
    if FirstReady(States(s.procs), 0) == None {
      FirstReadyNone(States(s.procs), 0);
    }
  }

  /** One event: the choice is round robin when schedule is called, and the runner stays otherwise. */
  ghost predicate Scheduled(s: Sys, e: Event, s': Sys)
    requires SysOk(s)
  {
    && Settled(s')
    && (!s.idle && !s'.idle ==>
          if Switches(s, e) then |States(s'.procs)| == NPROC && Pick(States(s'.procs), s.cur) == Some(s'.cur)
          else s'.cur == s.cur)
  }

  lemma StepScheduled(s: Sys, progC: seq<Word>, e: Event, obs: Obs, s': Sys)
    requires Bounded(s) && Settled(s) && SpecNext(s, progC, e, obs, Go(s'))
    ensures Scheduled(s, e, s')
  {
    hide Pick, FirstReady, SSwitch, SUnpark, States;
    match e {
      case Tick(bytes) =>
        InputsUntouched(s, bytes, s.cur);
        if s.idle { UnparkSettled(SInputs(s, bytes)); } else { SwitchPicks(SInputs(s, bytes), s'); }
      case Device(b) =>
        if s.idle { UnparkSettled(SInput(s, b)); }
      case Trap(reply) =>
        if !s.idle { TrapScheduled(s, progC, reply, s'); }
      case _ =>
    }
  }

  lemma TrapScheduled(s: Sys, progC: seq<Word>, reply: FileReply, s': Sys)
    requires Bounded(s) && !s.idle && STrap(s, progC, reply, Go(s'))
    ensures Scheduled(s, Trap(reply), s')
  {
    hide SSwitch, RoundUp, FirstEmpty, Pick, States;
    var n := Me(s).regs[RAX];
    match ExecImageOf(n, progC, reply)
    case Some(image) =>
    case None =>
      match n {
        case 2 => SwitchPicks(WithMe(s, DEAD), s');
        case 3 => SwitchPicks(s, s');
        case 4 => FirstEmptyFacts(s.procs, 0);
        case 7 =>
          if s.input == [] {
            SwitchPicks(WithMe(s, Me(s).(state := WAITING, regs := Me(s).regs[RIP := Me(s).regs[RIP] - 2])), s');
          }
        case _ =>
      }
  }

  lemma {:induction false} RunSettled(trace: seq<Sys>, progC: seq<Word>, events: seq<Event>, obs: seq<Obs>, b: nat)
    requires IsTrace(trace, progC, events, obs) && b <= |events| && Settled(trace[0])
    ensures Settled(trace[b])
    decreases b
  {
    hide SpecNext, Settled, Switches;
    if b > 0 {
      RunSettled(trace, progC, events, obs, b - 1);
      StepScheduled(trace[b - 1], progC, events[b - 1], obs[b - 1], trace[b]);
    }
  }

  /** The times in [a, b) at which schedule is called. */
  ghost function Times(trace: seq<Sys>, events: seq<Event>, a: nat, b: nat): (times: seq<nat>)
    requires a <= b <= |events| < |trace| && forall k | 0 <= k < |trace| :: SysOk(trace[k])
    ensures forall j | 0 <= j < |times| :: a <= times[j] < b && Switches(trace[times[j]], events[times[j]])
    ensures forall k | a <= k < b && Switches(trace[k], events[k]) :: k in times
    ensures forall i, j | 0 <= i < j < |times| :: times[i] < times[j]
    decreases b
  {
    if a == b then []
    else
      var before := Times(trace, events, a, b - 1);
      if Switches(trace[b - 1], events[b - 1]) then before + [b - 1] else before
  }

  /** Who was chosen: the runner at a, then after each call. */
  ghost function Chosen(trace: seq<Sys>, a: nat, times: seq<nat>): (curs: seq<nat>)
    requires a < |trace| && forall j | 0 <= j < |times| :: times[j] + 1 < |trace|
    ensures |curs| == |times| + 1
  {
    [trace[a].cur] + seq(|times|, j requires 0 <= j < |times| => trace[times[j] + 1].cur)
  }

  /** The slot states each choice was made from. */
  ghost function Seen(trace: seq<Sys>, times: seq<nat>): (states: seq<seq<PState>>)
    requires forall j | 0 <= j < |times| :: times[j] + 1 < |trace|
    ensures |states| == |times|
  {
    seq(|times|, j requires 0 <= j < |times| => States(trace[times[j] + 1].procs))
  }

  /** p is READY all through the stretch. */
  ghost predicate StaysReady(trace: seq<Sys>, a: nat, b: nat, p: nat) {
    a <= b < |trace| && p < NPROC && forall k | a <= k <= b :: |trace[k].procs| == NPROC && trace[k].procs[p].state == READY
  }

  /** The choices from a to b are a run of round robin that ends with the runner at b. */
  ghost predicate RunsTo(trace: seq<Sys>, events: seq<Event>, a: nat, b: nat)
    requires a <= b <= |events| < |trace| && forall k | 0 <= k < |trace| :: SysOk(trace[k])
  {
    var times := Times(trace, events, a, b);
    IsRun(Seen(trace, times), Chosen(trace, a, times)) && Chosen(trace, a, times)[|times|] == trace[b].cur
  }

  lemma {:induction false} StretchRuns(trace: seq<Sys>, progC: seq<Word>, events: seq<Event>, obs: seq<Obs>, p: nat, a: nat, b: nat)
    requires IsTrace(trace, progC, events, obs) && Settled(trace[0]) && b <= |events| && StaysReady(trace, a, b, p)
    requires |trace| == |events| + 1 && a <= b && forall k | 0 <= k < |trace| :: SysOk(trace[k])
    ensures RunsTo(trace, events, a, b) && !trace[b].idle
    decreases b
  {
    hide StaysReady, IsTrace, RunsTo, Settled, SysOk, Scheduled;
    ReadyRuns(trace, progC, events, obs, p, a, b);
    if a < b {
      StillReady(trace, a, b, b - 1, p);
      StretchRuns(trace, progC, events, obs, p, a, b - 1);
      RunScheduled(trace, progC, events, obs, b - 1);
      OneMore(trace, events, a, b);
    } else {
      NoneChosen(trace, events, a);
    }
  }

  /** While somebody stays READY the system never parks, and between calls of schedule the runner is
      the one last chosen: the choices of the stretch are a run of round robin. */
  lemma StretchIsRun(trace: seq<Sys>, progC: seq<Word>, events: seq<Event>, obs: seq<Obs>, p: nat, a: nat, b: nat)
    requires IsTrace(trace, progC, events, obs) && Settled(trace[0]) && b <= |events| && StaysReady(trace, a, b, p)
    ensures forall k | a <= k <= b :: !trace[k].idle
    ensures var times := Times(trace, events, a, b);
      IsRun(Seen(trace, times), Chosen(trace, a, times)) && Chosen(trace, a, times)[|times|] == trace[b].cur
  {
    TraceSound(trace, progC, events, obs);
    assert a <= b;
    hide StaysReady, IsTrace, Settled, SysOk, IsRun, Seen, Chosen, Times;
    forall k | a <= k <= b ensures !trace[k].idle {
      StillReady(trace, a, b, k, p);
      ReadyRuns(trace, progC, events, obs, p, a, k);
    }
    StretchRuns(trace, progC, events, obs, p, a, b);
  }

  lemma TraceSound(trace: seq<Sys>, progC: seq<Word>, events: seq<Event>, obs: seq<Obs>)
    requires IsTrace(trace, progC, events, obs)
    ensures |trace| == |events| + 1 && forall k | 0 <= k < |trace| :: SysOk(trace[k])
  {
    hide SpecNext, SysOk;
    forall k | 0 <= k < |trace| ensures SysOk(trace[k]) {
      assert Bounded(trace[k]);
    }
  }

  lemma StillReady(trace: seq<Sys>, a: nat, b: nat, k: nat, p: nat)
    requires StaysReady(trace, a, b, p) && a <= k <= b
    ensures StaysReady(trace, a, k, p)
  {}

  /** Somebody READY: not parked. */
  lemma ReadyRuns(trace: seq<Sys>, progC: seq<Word>, events: seq<Event>, obs: seq<Obs>, p: nat, a: nat, b: nat)
    requires IsTrace(trace, progC, events, obs) && Settled(trace[0]) && b <= |events| && StaysReady(trace, a, b, p)
    ensures !trace[b].idle
  {
    hide SpecNext;
    RunSettled(trace, progC, events, obs, b);
  }

  lemma RunScheduled(trace: seq<Sys>, progC: seq<Word>, events: seq<Event>, obs: seq<Obs>, k: nat)
    requires IsTrace(trace, progC, events, obs) && Settled(trace[0]) && k < |events|
    ensures SysOk(trace[k]) && Scheduled(trace[k], events[k], trace[k + 1])
  {
    hide SpecNext, Settled, Scheduled;
    RunSettled(trace, progC, events, obs, k);
    assert Bounded(trace[k]);
    StepScheduled(trace[k], progC, events[k], obs[k], trace[k + 1]);
  }

  lemma NoneChosen(trace: seq<Sys>, events: seq<Event>, a: nat)
    requires a <= |events| < |trace| && forall k | 0 <= k < |trace| :: SysOk(trace[k])
    ensures RunsTo(trace, events, a, a)
  {
    assert Times(trace, events, a, a) == [];
  }

  lemma RunExtended(states: seq<seq<PState>>, curs: seq<nat>, st: seq<PState>, c: nat)
    requires IsRun(states, curs) && |st| == NPROC && c < NPROC && Pick(st, curs[|states|]) == Some(c)
    ensures IsRun(states + [st], curs + [c])
  {
    hide Pick;
  }

  lemma OneMore(trace: seq<Sys>, events: seq<Event>, a: nat, b: nat)
    requires a < b <= |events| < |trace| && (forall k | 0 <= k < |trace| :: SysOk(trace[k])) && RunsTo(trace, events, a, b - 1)
    requires Scheduled(trace[b - 1], events[b - 1], trace[b]) && !trace[b - 1].idle && !trace[b].idle
    ensures RunsTo(trace, events, a, b)
  {
    hide Switches, Pick, States, IsRun, Seen, Chosen, Settled;
    if Switches(trace[b - 1], events[b - 1]) {
      Extended(trace, a, Times(trace, events, a, b - 1), b - 1);
    }
  }

  lemma Extended(trace: seq<Sys>, a: nat, times: seq<nat>, t: nat)
    requires a < |trace| && t + 1 < |trace| && forall j | 0 <= j < |times| :: times[j] + 1 < |trace|
    requires IsRun(Seen(trace, times), Chosen(trace, a, times)) && SysOk(trace[t + 1]) && |States(trace[t + 1].procs)| == NPROC
    requires Pick(States(trace[t + 1].procs), Chosen(trace, a, times)[|times|]) == Some(trace[t + 1].cur)
    ensures forall j | 0 <= j < |times + [t]| :: (times + [t])[j] + 1 < |trace|
    ensures IsRun(Seen(trace, times + [t]), Chosen(trace, a, times + [t])) && Chosen(trace, a, times + [t])[|times| + 1] == trace[t + 1].cur
  {
    hide Pick, States, IsRun;
    MoreSeen(trace, a, times, t);
    RunExtended(Seen(trace, times), Chosen(trace, a, times), States(trace[t + 1].procs), trace[t + 1].cur);
  }

  lemma MoreSeen(trace: seq<Sys>, a: nat, times: seq<nat>, t: nat)
    requires a < |trace| && t + 1 < |trace| && forall j | 0 <= j < |times| :: times[j] + 1 < |trace|
    ensures Seen(trace, times + [t]) == Seen(trace, times) + [States(trace[t + 1].procs)]
    ensures Chosen(trace, a, times + [t]) == Chosen(trace, a, times) + [trace[t + 1].cur]
  {
    hide States;
  }

  lemma SeenReady(trace: seq<Sys>, times: seq<nat>, p: nat, a: nat, b: nat)
    requires StaysReady(trace, a, b, p) && forall j | 0 <= j < |times| :: a <= times[j] < b
    ensures forall k | 0 <= k < |times| :: |Seen(trace, times)[k]| == NPROC && Seen(trace, times)[k][p] == READY
  {
    forall k | 0 <= k < |times| ensures |Seen(trace, times)[k]| == NPROC && Seen(trace, times)[k][p] == READY {
      StatesAt(trace[times[k] + 1].procs);
    }
  }

  lemma ChosenAt(trace: seq<Sys>, a: nat, times: seq<nat>, k: nat)
    requires a < |trace| && k < |times| && forall j | 0 <= j < |times| :: times[j] + 1 < |trace|
    ensures Chosen(trace, a, times)[k + 1] == trace[times[k] + 1].cur
  {}

  /** In every run, a process that stays READY runs after one of any NPROC calls of schedule. */
  lemma ReadyIsDispatched(trace: seq<Sys>, progC: seq<Word>, events: seq<Event>, obs: seq<Obs>, p: nat, a: nat, b: nat)
    requires IsTrace(trace, progC, events, obs) && Settled(trace[0]) && b <= |events| && StaysReady(trace, a, b, p)
    requires |Times(trace, events, a, b)| >= NPROC
    ensures var times := Times(trace, events, a, b);
      exists t :: 0 <= t < NPROC && trace[times[t] + 1].cur == p && !trace[times[t] + 1].idle
  {
    hide Times, SpecNext, IsRun, Seen, Chosen;
    var times := Times(trace, events, a, b);
    StretchIsRun(trace, progC, events, obs, p, a, b);
    SeenReady(trace, times, p, a, b);
    DispatchedWithinNproc(Seen(trace, times), Chosen(trace, a, times), p);
    var t :| 1 <= t <= NPROC && Chosen(trace, a, times)[t] == p;
    ChosenAt(trace, a, times, t - 1);
  }

  lemma ChosenOthers(trace: seq<Sys>, a: nat, times: seq<nat>, p: nat, j: nat)
    requires a < |trace| && j < |times| && forall t | 0 <= t < |times| :: times[t] + 1 < |trace|
    requires forall t | 0 <= t <= j :: trace[times[t] + 1].cur != p
    ensures p !in Chosen(trace, a, times)[1..j + 2]
  {
    var part := Chosen(trace, a, times)[1..j + 2];
    forall k | 0 <= k < |part| ensures part[k] != p {
      ChosenAt(trace, a, times, k);
    }
  }

  lemma NotChosen(trace: seq<Sys>, times: seq<nat>, p: nat, a: nat, b: nat, i: nat, j: nat)
    requires StaysReady(trace, a, b, p) && i < j < |times| && forall t | 0 <= t < |times| :: a <= times[t] < b
    requires IsRun(Seen(trace, times), Chosen(trace, a, times))
    requires forall t | 0 <= t <= j :: trace[times[t] + 1].cur != p
    ensures trace[times[i] + 1].cur != trace[times[j] + 1].cur
  {
    SeenReady(trace, times, p, a, b);
    ChosenAt(trace, a, times, i);
    ChosenAt(trace, a, times, j);
    ChosenOthers(trace, a, times, p, j);
    hide IsRun, Seen, Chosen, StaysReady;
    ChosenOnce(Seen(trace, times), Chosen(trace, a, times), p, i, j);
  }

  lemma ChosenOnce(states: seq<seq<PState>>, curs: seq<nat>, p: nat, i: nat, j: nat)
    requires IsRun(states, curs) && p < NPROC && i < j < |states|
    requires forall k | 0 <= k < |states| :: states[k][p] == READY
    requires p !in curs[1..j + 2]
    ensures curs[i + 1] != curs[j + 1]
  {
    forall k | 0 <= k < j + 1 ensures states[k][p] == READY && curs[k + 1] != p {
      assert curs[1..j + 2][k] == curs[k + 1];
    }
    ChosenAtMostOnce(states, curs, p, i + 1, j + 1);
  }

  /** And until it runs, no other slot is switched to twice. */
  lemma OthersOnceEach(trace: seq<Sys>, progC: seq<Word>, events: seq<Event>, obs: seq<Obs>, p: nat, a: nat, b: nat, i: nat, j: nat)
    requires IsTrace(trace, progC, events, obs) && Settled(trace[0]) && b <= |events| && StaysReady(trace, a, b, p)
    requires i < j < |Times(trace, events, a, b)|
    requires forall t | 0 <= t <= j :: trace[Times(trace, events, a, b)[t] + 1].cur != p
    ensures var times := Times(trace, events, a, b); trace[times[i] + 1].cur != trace[times[j] + 1].cur
  {
    hide Times, SpecNext, IsRun, Seen, Chosen, StaysReady;
    StretchIsRun(trace, progC, events, obs, p, a, b);
    NotChosen(trace, Times(trace, events, a, b), p, a, b, i, j);
  }
}
