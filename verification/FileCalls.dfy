// The file system calls: per-process descriptors with a cursor over Mik-FS
// files, and what reading back a written file gives whatever else goes on.

module FileCalls {
  import opened Options
  import opened Bytes
  import opened MikFsLayout
  import opened MikFs
  import RoundRobin

  const NPROC := RoundRobin.NPROC
  const NFDS := 4
  /** What a failed call returns. */
  const FAIL := -1

  datatype Fd = Fd(used: bool, dir: nat, pos: nat, write: bool)
  const EMPTY_FD := Fd(false, 0, 0, false)

  /** The volume and every process's descriptors; fd numbers start at 2. */
  datatype Files = Files(vol: Vol, fds: seq<seq<Fd>>)

  /** A used descriptor names a live file. */
  ghost predicate FilesOk(s: Files) {
    && VolOk(s.vol) && |s.fds| == NPROC
    && (forall p | 0 <= p < NPROC :: |s.fds[p]| == NFDS)
    && (forall p, k | 0 <= p < NPROC && 0 <= k < NFDS :: FdOk(s.vol, s.fds[p][k]))
  }

  predicate FdOk(v: Vol, fd: Fd) { fd.used ==> fd.dir < |v.files| }

  datatype Call =
    | Open(p: nat, name: seq<u8>, write: bool)
    | Close(p: nat, fd: nat)
    | Fread(p: nat, fd: nat)
    | Fwrite(p: nat, fd: nat, b: u8)
    | Fork(p: nat, child: nat)
    | Spawn(p: nat)
    | Remount

  /** What a call leaves and returns. */
  datatype Ret = Ret(s: Files, rax: int)

  /** Processes of the table; and a file is created only under a name the directory can hold. */
  ghost predicate CallOk(c: Call) {
    match c
    case Open(p, name, write) => p < NPROC && (write && 0 < |name| <= NAME_MAX ==> Wholesome(name))
    case Close(p, _) => p < NPROC
    case Fread(p, _) => p < NPROC
    case Fwrite(p, _, _) => p < NPROC
    case Fork(p, child) => p < NPROC && child < NPROC
    case Spawn(p) => p < NPROC
    case Remount => true
  }

  // ---- The specification ---------------------------------------------------------------

  function WithFd(s: Files, p: nat, k: nat, fd: Fd): Files
    requires p < |s.fds| && k < |s.fds[p]|
  {
    s.(fds := s.fds[p := s.fds[p][k := fd]])
  }

  /** The first unused descriptor. */
  function FreeFd(fds: seq<Fd>): (r: Option<nat>)
    ensures r.Some? ==> r.value < |fds| && !fds[r.value].used && forall k | 0 <= k < r.value :: fds[k].used
    ensures r.None? ==> forall k | 0 <= k < |fds| :: fds[k].used
  {
    if fds == [] then None
    else match FreeFd(fds[..|fds| - 1])
      case Some(k) => Some(k)
      case None => if fds[|fds| - 1].used then None else Some(|fds| - 1)
  }

  /** The volume after the file part of open, and the file opened. */
  datatype Opened = Opened(vol: Vol, dir: Option<nat>)

  function OpenFile(v: Vol, name: seq<u8>, write: bool): Opened {
    match Lookup(v.files, name)
    case Some(i) => Opened(if write then Truncated(v, i) else v, Some(i))
    case None =>
      if write && |v.files| < MAX_FILES then Opened(Created(v, name), Some(|v.files|)) else Opened(v, None)
  }

  function SOpen(s: Files, p: nat, name: seq<u8>, write: bool): Ret
    requires p < |s.fds|
  {
    if |name| == 0 || |name| > NAME_MAX then Ret(s, FAIL)
    else
      var o := OpenFile(s.vol, Stem(name), write);
      var s1 := s.(vol := o.vol);
      match (o.dir, FreeFd(s.fds[p]))
      case (Some(i), Some(k)) => Ret(WithFd(s1, p, k, Fd(true, i, 0, write)), k + 2)
      case _ => Ret(s1, FAIL)
  }

  /** fd n of process p is open. */
  predicate IsOpen(s: Files, p: nat, n: nat)
    requires p < |s.fds|
  {
    2 <= n < 2 + |s.fds[p]| && s.fds[p][n - 2].used
  }

  function SClose(s: Files, p: nat, n: nat): Ret
    requires p < |s.fds|
  {
    if IsOpen(s, p, n) then Ret(WithFd(s, p, n - 2, EMPTY_FD), 0) else Ret(s, FAIL)
  }

  function SFread(s: Files, p: nat, n: nat): Ret
    requires FilesOk(s) && p < NPROC
  {
    if !IsOpen(s, p, n) || s.fds[p][n - 2].write then Ret(s, FAIL)
    else
      var fd := s.fds[p][n - 2];
      assert FdOk(s.vol, fd);
      match ByteAt(s.vol, fd.dir, fd.pos)
      case Some(b) => Ret(WithFd(s, p, n - 2, fd.(pos := fd.pos + 1)), b)
      case None => Ret(s, FAIL)
  }

  function SFwrite(s: Files, p: nat, n: nat, b: u8): Ret
    requires FilesOk(s) && p < NPROC
  {
    if !IsOpen(s, p, n) || !s.fds[p][n - 2].write then Ret(s, FAIL)
    else
      var fd := s.fds[p][n - 2];
      assert FdOk(s.vol, fd);
      if fd.pos >= FILE_CAP then Ret(s, FAIL)
      else
        Ret(WithFd(s.(vol := Written(s.vol, fd.dir, fd.pos, b)), p, n - 2, fd.(pos := fd.pos + 1)), 0)
  }

  function NoFds(): (fds: seq<Fd>)
    ensures |fds| == NFDS
  {
    [EMPTY_FD, EMPTY_FD, EMPTY_FD, EMPTY_FD]
  }

  /** One call.  A remount restarts the machine on the same disk: the volume stays, no process
      has an open file. */
  function SStep(s: Files, c: Call): (r: Ret)
    requires FilesOk(s) && CallOk(c)
  {
    match c
    case Open(p, name, write) => SOpen(s, p, name, write)
    case Close(p, n) => SClose(s, p, n)
    case Fread(p, n) => SFread(s, p, n)
    case Fwrite(p, n, b) => SFwrite(s, p, n, b)
    case Fork(p, child) => Ret(s.(fds := s.fds[child := s.fds[p]]), 0)
    case Spawn(p) => Ret(s.(fds := s.fds[p := NoFds()]), 0)
    case Remount => Ret(s.(fds := [NoFds(), NoFds(), NoFds(), NoFds()]), 0)
  }

  // ---- The invariant -------------------------------------------------------------------

  /** One volume has at least the files of another. */
  predicate Extends(v: Vol, w: Vol) { |v.files| <= |w.files| }

  lemma OpenKeeps(v: Vol, name: seq<u8>, write: bool)
    requires VolOk(v) && (write ==> NameOk(name))
    ensures var o := OpenFile(v, name, write);
      VolOk(o.vol) && Extends(v, o.vol) && (o.dir.Some? ==> o.dir.value < |o.vol.files| && o.vol.files[o.dir.value].name == name)
  {
    if Lookup(v.files, name).None? {
      var f := Created(v, name).files;
      forall i | 0 <= i < |v.files| ensures f[i].name != f[|v.files|].name {}
    }
  }

  lemma WrittenOk(v: Vol, i: nat, pos: nat, b: u8)
    requires VolOk(v) && i < |v.files| && pos < FILE_CAP
    ensures VolOk(Written(v, i, pos, b)) && Extends(v, Written(v, i, pos, b))
  {
    var f := Written(v, i, pos, b).files;
    forall j | 0 <= j < |v.files| ensures f[j].name == v.files[j].name {}
  }

  lemma WithFdOk(s: Files, v: Vol, p: nat, k: nat, fd: Fd)
    requires FilesOk(s) && VolOk(v) && Extends(s.vol, v) && p < NPROC && k < NFDS && FdOk(v, fd)
    ensures FilesOk(WithFd(s.(vol := v), p, k, fd))
  {
    var t := WithFd(s.(vol := v), p, k, fd);
    forall q, j | 0 <= q < NPROC && 0 <= j < NFDS ensures FdOk(t.vol, t.fds[q][j]) {
      assert FdOk(s.vol, s.fds[q][j]);
    }
  }

  /** Every call keeps names distinct, files within their extents and open descriptors on live files. */
  lemma StepOk(s: Files, c: Call)
    requires FilesOk(s) && CallOk(c)
    ensures FilesOk(SStep(s, c).s)
  {
    hide VolOk, Written, OpenFile, FreeFd;
    match c {
      case Open(p, name, write) =>
        if 0 < |name| <= NAME_MAX {
          OpenKeeps(s.vol, Stem(name), write);
          var o := OpenFile(s.vol, Stem(name), write);
          var k := FreeFd(s.fds[p]);
          if o.dir.Some? && k.Some? {
            WithFdOk(s, o.vol, p, k.value, Fd(true, o.dir.value, 0, write));
          } else {
            GrowOk(s, o.vol);
          }
        }
      case Close(p, n) =>
        if IsOpen(s, p, n) {
          WithFdOk(s, s.vol, p, n - 2, EMPTY_FD);
        }
      case Fread(p, n) =>
        if IsOpen(s, p, n) {
          assert FdOk(s.vol, s.fds[p][n - 2]);
          WithFdOk(s, s.vol, p, n - 2, s.fds[p][n - 2].(pos := s.fds[p][n - 2].pos + 1));
        }
      case Fwrite(p, n, b) =>
        FwriteOk(s, p, n, b);
      case Fork(p, child) =>
        var t := SStep(s, c).s;
        forall q, j | 0 <= q < NPROC && 0 <= j < NFDS ensures FdOk(t.vol, t.fds[q][j]) {
          assert FdOk(s.vol, s.fds[if q == child then p else q][j]);
        }
      case _ =>
    }
  }

  lemma FwriteOk(s: Files, p: nat, n: nat, b: u8)
    requires FilesOk(s) && p < NPROC
    ensures FilesOk(SFwrite(s, p, n, b).s)
  {
    if IsOpen(s, p, n) && s.fds[p][n - 2].write {
      var fd := s.fds[p][n - 2];
      assert FdOk(s.vol, fd);
      if fd.pos < FILE_CAP {
        WrittenOk(s.vol, fd.dir, fd.pos, b);
        WithFdOk(s, Written(s.vol, fd.dir, fd.pos, b), p, n - 2, fd.(pos := fd.pos + 1));
      }
    }
  }

  lemma GrowOk(s: Files, v: Vol)
    requires FilesOk(s) && VolOk(v) && Extends(s.vol, v)
    ensures FilesOk(s.(vol := v))
  {
    forall q, j | 0 <= q < NPROC && 0 <= j < NFDS ensures FdOk(v, s.fds[q][j]) {
      assert FdOk(s.vol, s.fds[q][j]);
    }
  }

  // ---- What a call leaves alone ----------------------------------------------------------

  /** The call neither truncates file i nor writes to it through a descriptor. */
  ghost predicate Spares(s: Files, c: Call, i: nat)
    requires FilesOk(s) && CallOk(c)
  {
    match c
    case Open(_, name, write) => !(write && Lookup(s.vol.files, Stem(name)) == Some(i))
    case Fwrite(p, n, _) => !(IsOpen(s, p, n) && s.fds[p][n - 2].write && s.fds[p][n - 2].dir == i)
    case _ => true
  }

  /** The call does not close or replace descriptor n of process p, or move its cursor. */
  ghost predicate SparesFd(c: Call, p: nat, n: nat) {
    match c
    case Close(q, m) => q != p || m != n
    case Fread(q, m) => q != p || m != n
    case Fwrite(q, m, _) => q != p || m != n
    case Fork(_, child) => child != p
    case Spawn(q) => q != p
    case Remount => false
    case Open(_, _, _) => true
  }

  /** File i: same name, length and extent. */
  ghost predicate SameFile(v: Vol, w: Vol, i: nat)
    requires VolOk(v) && VolOk(w)
  {
    i < |v.files| ==> i < |w.files| && w.files[i] == v.files[i] && w.data[i] == v.data[i]
  }

  /** A call that spares a file changes nothing about it, whatever it does to others. */
  lemma FileKept(s: Files, c: Call, i: nat)
    requires FilesOk(s) && CallOk(c) && Spares(s, c, i) && i < |s.vol.files|
    ensures VolOk(SStep(s, c).s.vol) && SameFile(s.vol, SStep(s, c).s.vol, i)
  {
    StepOk(s, c);
    hide VolOk, FreeFd;
    match c {
      case Fwrite(p, n, b) =>
        if IsOpen(s, p, n) {
          assert FdOk(s.vol, s.fds[p][n - 2]);
        }
      case _ =>
    }
  }

  /** A call that spares a descriptor leaves it exactly as it was. */
  lemma FdKept(s: Files, c: Call, p: nat, n: nat)
    requires FilesOk(s) && CallOk(c) && SparesFd(c, p, n) && p < NPROC && IsOpen(s, p, n)
    ensures SStep(s, c).s.fds[p][n - 2] == s.fds[p][n - 2]
    ensures |SStep(s, c).s.fds| == NPROC && |SStep(s, c).s.fds[p]| == NFDS
  {
    StepOk(s, c);
    hide VolOk, Written, OpenFile;
  }

  // ---- Runs --------------------------------------------------------------------------------

  ghost predicate CallsOk(cs: seq<Call>) { forall k | 0 <= k < |cs| :: CallOk(cs[k]) }

  /** The state after a sequence of calls. */
  ghost function Play(s: Files, cs: seq<Call>): Files
    requires FilesOk(s) && CallsOk(cs)
    decreases |cs|
  {
    if cs == [] then s
    else
      StepOk(s, cs[0]);
      Play(SStep(s, cs[0]).s, cs[1..])
  }

  lemma {:induction false} PlayOk(s: Files, cs: seq<Call>)
    requires FilesOk(s) && CallsOk(cs)
    ensures FilesOk(Play(s, cs))
    decreases |cs|
  {
    if cs != [] {
      StepOk(s, cs[0]);
      PlayOk(SStep(s, cs[0]).s, cs[1..]);
    }
  }

  /** What a sequence of calls returns. */
  ghost function Answers(s: Files, cs: seq<Call>): (rets: seq<int>)
    requires FilesOk(s) && CallsOk(cs)
    ensures |rets| == |cs|
    decreases |cs|
  {
    if cs == [] then []
    else
      StepOk(s, cs[0]);
      [SStep(s, cs[0]).rax] + Answers(SStep(s, cs[0]).s, cs[1..])
  }

  /** One call more. */
  lemma {:induction false} PlayMore(s: Files, cs: seq<Call>, c: Call)
    requires FilesOk(s) && CallsOk(cs) && CallOk(c)
    ensures CallsOk(cs + [c]) && FilesOk(Play(s, cs))
    ensures Play(s, cs + [c]) == SStep(Play(s, cs), c).s
    ensures Answers(s, cs + [c]) == Answers(s, cs) + [SStep(Play(s, cs), c).rax]
    decreases |cs|
  {
    hide SStep, FilesOk, CallOk;
    PlayOk(s, cs);
    if cs == [] {
      assert cs + [c] == [c];
    } else {
      StepOk(s, cs[0]);
      assert (cs + [c])[1..] == cs[1..] + [c];
      PlayMore(SStep(s, cs[0]).s, cs[1..], c);
    }
  }

  // ---- Writing through one descriptor --------------------------------------------------------

  /** Bytes the calls write through descriptor n of process p, in order. */
  function WriterBytes(cs: seq<Call>, p: nat, n: nat): seq<u8> {
    if cs == [] then []
    else
      (match cs[0] case Fwrite(q, m, b) => (if q == p && m == n then [b] else []) case _ => []) + WriterBytes(cs[1..], p, n)
  }

  /** bs has been written to file i through descriptor n of p, as much of it as fits. */
  ghost predicate Writing(s: Files, p: nat, n: nat, i: nat, bs: seq<u8>) {
    && FilesOk(s) && p < NPROC && 2 <= n < 2 + NFDS && i < |s.vol.files|
    && s.fds[p][n - 2] == Fd(true, i, Fit(|bs|), true)
    && Contents(s.vol, i) == bs[..Fit(|bs|)]
  }

  /** Nobody else writes or truncates file i, and p keeps its descriptor, all along. */
  ghost predicate WriterAlone(s: Files, cs: seq<Call>, p: nat, n: nat, i: nat)
    requires FilesOk(s) && CallsOk(cs)
    decreases |cs|
  {
    cs == [] ||
    (&& (IsWrite(cs[0], p, n) || (Spares(s, cs[0], i) && SparesFd(cs[0], p, n)))
     && FilesOk(SStep(s, cs[0]).s)
     && WriterAlone(SStep(s, cs[0]).s, cs[1..], p, n, i))
  }

  predicate IsWrite(c: Call, p: nat, n: nat) { c.Fwrite? && c.p == p && c.fd == n }

  lemma WriteOne(s: Files, p: nat, n: nat, i: nat, bs: seq<u8>, b: u8)
    requires Writing(s, p, n, i, bs)
    ensures Writing(SFwrite(s, p, n, b).s, p, n, i, bs + [b])
    ensures SFwrite(s, p, n, b).rax == if |bs| < FILE_CAP then 0 else FAIL
  {
    FwriteOk(s, p, n, b);
    hide VolOk;
    assert FdOk(s.vol, s.fds[p][n - 2]);
    var cs := bs + [b];
    if |bs| < FILE_CAP {
      var w := Written(s.vol, i, |bs|, b);
      assert w.data[i][..|cs|] == s.vol.data[i][..|bs|] + [b];
      assert bs[..Fit(|bs|)] == bs;
    } else {
      assert cs[..FILE_CAP] == bs[..FILE_CAP];
    }
  }

  lemma {:induction false} WritePhase(s: Files, cs: seq<Call>, p: nat, n: nat, i: nat, bs: seq<u8>)
    requires Writing(s, p, n, i, bs) && CallsOk(cs) && WriterAlone(s, cs, p, n, i)
    ensures Writing(Play(s, cs), p, n, i, bs + WriterBytes(cs, p, n))
    decreases |cs|
  {
    hide Contents, SStep, Spares, FilesOk, SparesFd, CallOk;
    if cs == [] {
      assert bs + [] == bs;
    } else {
      var c, s1 := cs[0], SStep(s, cs[0]).s;
      CallAt(cs);
      StepOk(s, c);
      var more: seq<u8> := if IsWrite(c, p, n) then [c.b] else [];
      assert Writing(s1, p, n, i, bs + more) by { WriterStep(s, c, p, n, i, bs); }
      WritePhase(s1, cs[1..], p, n, i, bs + more);
      assert WriterBytes(cs, p, n) == more + WriterBytes(cs[1..], p, n);
      Concat(bs, more, WriterBytes(cs[1..], p, n));
    }
  }

  lemma Concat<T>(a: seq<T>, b: seq<T>, c: seq<T>)
    ensures a + b + c == a + (b + c)
  {}

  lemma CallAt(cs: seq<Call>)
    requires cs != [] && CallsOk(cs)
    ensures CallOk(cs[0]) && CallsOk(cs[1..])
  {}

  lemma WriterStep(s: Files, c: Call, p: nat, n: nat, i: nat, bs: seq<u8>)
    requires Writing(s, p, n, i, bs) && CallOk(c)
    requires IsWrite(c, p, n) || (Spares(s, c, i) && SparesFd(c, p, n))
    ensures Writing(SStep(s, c).s, p, n, i, if IsWrite(c, p, n) then bs + [c.b] else bs + [])
  {
    if IsWrite(c, p, n) {
      WriteOne(s, p, n, i, bs, c.b);
    } else {
      StepOk(s, c);
      FileKept(s, c, i);
      FdKept(s, c, p, n);
      hide SStep;
      assert bs + [] == bs;
    }
  }

  // ---- Between the writer and the reader ------------------------------------------------------

  /** File i has that name and content. */
  ghost predicate Holds(s: Files, i: nat, name: seq<u8>, content: seq<u8>) {
    FilesOk(s) && i < |s.vol.files| && s.vol.files[i].name == name && Contents(s.vol, i) == content
  }

  /** Nobody writes or truncates file i, across forks, exits and remounts. */
  ghost predicate Untouched(s: Files, cs: seq<Call>, i: nat)
    requires FilesOk(s) && CallsOk(cs)
    decreases |cs|
  {
    cs == [] ||
    (Spares(s, cs[0], i) && FilesOk(SStep(s, cs[0]).s) && Untouched(SStep(s, cs[0]).s, cs[1..], i))
  }

  lemma {:induction false} GapPhase(s: Files, cs: seq<Call>, i: nat, name: seq<u8>, content: seq<u8>)
    requires Holds(s, i, name, content) && CallsOk(cs) && Untouched(s, cs, i)
    ensures Holds(Play(s, cs), i, name, content)
    decreases |cs|
  {
    hide SStep, Spares, FilesOk, CallOk;
    if cs != [] {
      CallAt(cs);
      HoldsStep(s, cs[0], i, name, content);
      GapPhase(SStep(s, cs[0]).s, cs[1..], i, name, content);
    }
  }

  lemma HoldsStep(s: Files, c: Call, i: nat, name: seq<u8>, content: seq<u8>)
    requires Holds(s, i, name, content) && CallOk(c) && Spares(s, c, i)
    ensures Holds(SStep(s, c).s, i, name, content)
  {
    StepOk(s, c);
    FileKept(s, c, i);
  }

  // ---- Reading through one descriptor ----------------------------------------------------------

  predicate IsRead(c: Call, p: nat, n: nat) { c.Fread? && c.p == p && c.fd == n }

  /** k reads of content have been made through descriptor n of p. */
  ghost predicate Reading(s: Files, p: nat, n: nat, i: nat, content: seq<u8>, k: nat) {
    && FilesOk(s) && p < NPROC && 2 <= n < 2 + NFDS && i < |s.vol.files|
    && s.fds[p][n - 2] == Fd(true, i, if k <= |content| then k else |content|, false)
    && Contents(s.vol, i) == content
  }

  ghost predicate ReaderAlone(s: Files, cs: seq<Call>, p: nat, n: nat, i: nat)
    requires FilesOk(s) && CallsOk(cs)
    decreases |cs|
  {
    cs == [] ||
    (&& Spares(s, cs[0], i) && (IsRead(cs[0], p, n) || SparesFd(cs[0], p, n))
     && FilesOk(SStep(s, cs[0]).s)
     && ReaderAlone(SStep(s, cs[0]).s, cs[1..], p, n, i))
  }

  /** What the reads through that descriptor return, in order. */
  ghost function Reads(s: Files, cs: seq<Call>, p: nat, n: nat): seq<int>
    requires FilesOk(s) && CallsOk(cs)
    decreases |cs|
  {
    if cs == [] then []
    else
      StepOk(s, cs[0]);
      (if IsRead(cs[0], p, n) then [SStep(s, cs[0]).rax] else []) + Reads(SStep(s, cs[0]).s, cs[1..], p, n)
  }

  /** The byte at k, or failure past the end. */
  function ByteOrEof(content: seq<u8>, k: nat): int { if k < |content| then content[k] else FAIL }

  lemma ReadOne(s: Files, p: nat, n: nat, i: nat, content: seq<u8>, k: nat)
    requires Reading(s, p, n, i, content, k)
    ensures Reading(SFread(s, p, n).s, p, n, i, content, k + 1)
    ensures SFread(s, p, n).rax == ByteOrEof(content, k)
  {
    StepOk(s, Fread(p, n));
    assert FdOk(s.vol, s.fds[p][n - 2]);
    if k < |content| {
      assert Contents(s.vol, i)[k] == s.vol.data[i][k];
    }
  }

  lemma ReaderStep(s: Files, c: Call, p: nat, n: nat, i: nat, content: seq<u8>, k: nat)
    requires Reading(s, p, n, i, content, k) && CallOk(c)
    requires Spares(s, c, i) && (IsRead(c, p, n) || SparesFd(c, p, n))
    ensures Reading(SStep(s, c).s, p, n, i, content, if IsRead(c, p, n) then k + 1 else k)
    ensures IsRead(c, p, n) ==> SStep(s, c).rax == ByteOrEof(content, k)
  {
    if IsRead(c, p, n) {
      ReadOne(s, p, n, i, content, k);
    } else {
      StepOk(s, c);
      FileKept(s, c, i);
      FdKept(s, c, p, n);
      hide SStep;
    }
  }

  lemma {:induction false} ReadPhase(s: Files, cs: seq<Call>, p: nat, n: nat, i: nat, content: seq<u8>, k: nat)
    requires Reading(s, p, n, i, content, k) && CallsOk(cs) && ReaderAlone(s, cs, p, n, i)
    ensures forall j | 0 <= j < |Reads(s, cs, p, n)| :: Reads(s, cs, p, n)[j] == ByteOrEof(content, k + j)
    decreases |cs|
  {
    hide SStep, Spares, SparesFd, FilesOk, Contents, CallOk, ByteOrEof;
    if cs != [] {
      var c, s1 := cs[0], SStep(s, cs[0]).s;
      CallAt(cs);
      StepOk(s, c);
      ReaderStep(s, c, p, n, i, content, k);
      var k1 := if IsRead(c, p, n) then k + 1 else k;
      ReadPhase(s1, cs[1..], p, n, i, content, k1);
      var rest, all := Reads(s1, cs[1..], p, n), Reads(s, cs, p, n);
      forall j | 0 <= j < |all| ensures all[j] == ByteOrEof(content, k + j) {
        if IsRead(c, p, n) && j > 0 {
          assert all[j] == rest[j - 1];
          assert k1 + (j - 1) == k + j;
        }
      }
    }
  }

  // ---- The round trip ------------------------------------------------------------------------------

  /** The file a successful open for writing gives. */
  function FileOpened(s: Files, p: nat, name: seq<u8>): nat
    requires p < |s.fds| && SOpen(s, p, name, true).rax != FAIL
  {
    OpenFile(s.vol, Stem(name), true).dir.value
  }

  lemma OpenWriter(s: Files, p: nat, name: seq<u8>)
    requires FilesOk(s) && CallOk(Open(p, name, true)) && SOpen(s, p, name, true).rax != FAIL
    ensures var r, i := SOpen(s, p, name, true), FileOpened(s, p, name);
      r.rax >= 2 && Writing(r.s, p, r.rax, i, []) && r.s.vol.files[i].name == Stem(name)
  {
    StepOk(s, Open(p, name, true));
    OpenKeeps(s.vol, Stem(name), true);
    var r := SOpen(s, p, name, true);
    var o := OpenFile(s.vol, Stem(name), true);
    assert Contents(r.s.vol, o.dir.value) == [];
  }

  lemma OpenReader(s: Files, p: nat, name: seq<u8>, i: nat, content: seq<u8>)
    requires Holds(s, i, Stem(name), content) && p < NPROC && SOpen(s, p, name, false).rax != FAIL
    ensures var r := SOpen(s, p, name, false); Reading(r.s, p, r.rax, i, content, 0)
  {
    StepOk(s, Open(p, name, false));
    var f := s.vol.files;
    forall j | 0 <= j < |f| && j != i ensures f[j].name != Stem(name) {
      assert f[if i < j then i else j].name != f[if i < j then j else i].name;
    }
    LookupOnly(f, Stem(name), i);
  }

  lemma {:induction false} NameKept(s: Files, cs: seq<Call>, i: nat)
    requires FilesOk(s) && CallsOk(cs) && i < |s.vol.files|
    ensures i < |Play(s, cs).vol.files| && Play(s, cs).vol.files[i].name == s.vol.files[i].name
    decreases |cs|
  {
    hide SStep, FilesOk, CallOk;
    if cs != [] {
      CallAt(cs);
      StepOk(s, cs[0]);
      NameStep(s, cs[0], i);
      NameKept(SStep(s, cs[0]).s, cs[1..], i);
    }
  }

  /** No call renames a file or moves it in the directory. */
  lemma NameStep(s: Files, c: Call, i: nat)
    requires FilesOk(s) && CallOk(c) && i < |s.vol.files|
    ensures i < |SStep(s, c).s.vol.files| && SStep(s, c).s.vol.files[i].name == s.vol.files[i].name
  {
    hide VolOk, FreeFd;
    match c {
      case Fwrite(p, n, b) =>
        if IsOpen(s, p, n) {
          assert FdOk(s.vol, s.fds[p][n - 2]);
        }
      case _ =>
    }
  }

  /** The states of a write-close-reopen-read session: opened for writing by p, written, closed,
      left alone, opened for reading by q. */
  ghost predicate Session(s: Files, p: nat, q: nat, name: seq<u8>, cs1: seq<Call>, cs2: seq<Call>, cs3: seq<Call>) {
    && FilesOk(s) && CallOk(Open(p, name, true)) && q < NPROC && CallsOk(cs1) && CallsOk(cs2) && CallsOk(cs3)
    && SOpen(s, p, name, true).rax >= 2
    && var i, w := FileOpened(s, p, name), SOpen(s, p, name, true);
    && FilesOk(w.s) && WriterAlone(w.s, cs1, p, w.rax, i)
    && var s1 := SStep(Played(w.s, cs1), Close(p, w.rax)).s;
    && FilesOk(s1) && Untouched(s1, cs2, i)
    && var r := SOpen(Played(s1, cs2), q, name, false);
    && r.rax >= 2 && FilesOk(r.s) && ReaderAlone(r.s, cs3, q, r.rax, i)
  }

  ghost function Played(s: Files, cs: seq<Call>): (t: Files)
    requires FilesOk(s) && CallsOk(cs)
    ensures FilesOk(t)
  {
    PlayOk(s, cs);
    Play(s, cs)
  }

  /** What the reader of a session gets back. */
  ghost function SessionReads(s: Files, p: nat, q: nat, name: seq<u8>, cs1: seq<Call>, cs2: seq<Call>, cs3: seq<Call>): seq<int>
    requires Session(s, p, q, name, cs1, cs2, cs3)
  {
    var w := SOpen(s, p, name, true);
    var r := SOpen(Played(SStep(Played(w.s, cs1), Close(p, w.rax)).s, cs2), q, name, false);
    Reads(r.s, cs3, q, r.rax)
  }

  /** Open for write, write, close, open for read, read: the bytes written come back in order, as
      many as fit in 4096, and then every read says end of file, for all interleaved calls of all
      processes, forks, exits and remounts that leave this file and these descriptors alone. */
  lemma FdRoundTrip(s: Files, p: nat, q: nat, name: seq<u8>, cs1: seq<Call>, cs2: seq<Call>, cs3: seq<Call>)
    requires Session(s, p, q, name, cs1, cs2, cs3)
    ensures var w, got := SOpen(s, p, name, true), SessionReads(s, p, q, name, cs1, cs2, cs3);
      var bs := WriterBytes(cs1, p, w.rax);
      forall k | 0 <= k < |got| :: got[k] == ByteOrEof(bs[..Fit(|bs|)], k)
  {
    hide SOpen, SStep, VolOk, WriterAlone, Untouched, ReaderAlone, Play, Reads, CallsOk, ByteOrEof;
    var i, w := FileOpened(s, p, name), SOpen(s, p, name, true);
    OpenWriter(s, p, name);
    WritePhase(w.s, cs1, p, w.rax, i, []);
    NameKept(w.s, cs1, i);
    var bs := WriterBytes(cs1, p, w.rax);
    assert [] + bs == bs;
    var t := Played(w.s, cs1);
    CloseHolds(t, p, w.rax, i, Stem(name), bs);
    var s1 := SStep(t, Close(p, w.rax)).s;
    GapPhase(s1, cs2, i, Stem(name), bs[..Fit(|bs|)]);
    var s2 := Played(s1, cs2);
    OpenReader(s2, q, name, i, bs[..Fit(|bs|)]);
    var r := SOpen(s2, q, name, false);
    ReadPhase(r.s, cs3, q, r.rax, i, bs[..Fit(|bs|)], 0);
  }

  lemma CloseHolds(s: Files, p: nat, n: nat, i: nat, name: seq<u8>, bs: seq<u8>)
    requires Writing(s, p, n, i, bs) && s.vol.files[i].name == name
    ensures Holds(SStep(s, Close(p, n)).s, i, name, bs[..Fit(|bs|)])
  {
    StepOk(s, Close(p, n));
  }
}
