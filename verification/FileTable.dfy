// The file calls as the kernel makes them: descriptors updated in place, over
// the mounted Mik-FS.

module FileTables {
  import opened Options
  import opened Bytes
  import opened MikFsLayout
  import opened MikFs
  import opened FileCalls

  class FileTable {
    const fs: Fs
    var fds: seq<seq<Fd>>

    ghost predicate Valid()
      reads this, fs, fs.disk, fs.dir
    {
      fs.Valid() && FilesOk(State())
    }

    ghost function State(): Files
      requires fs.Valid()
      reads this, fs, fs.disk, fs.dir
    {
      Files(fs.Volume(), fds)
    }

    constructor (mounted: Fs)
      requires mounted.Valid()
      ensures Valid() && fs == mounted && State() == Files(mounted.Volume(), [NoFds(), NoFds(), NoFds(), NoFds()])
    {
      fs := mounted;
      fds := [NoFds(), NoFds(), NoFds(), NoFds()];
    }

    method SetFd(p: nat, k: nat, fd: Fd)
      requires fs.Valid() && p < |fds| && k < |fds[p]|
      modifies this
      ensures fs.Valid() && State() == WithFd(old(State()), p, k, fd)
    {
      fds := fds[p := fds[p][k := fd]];
    }

    /** The first unused descriptor of p. */
    method Position(p: nat) returns (r: Option<nat>)
      requires p < |fds|
      ensures r == FreeFd(fds[p])
    {
      var k := 0;
      while k < |fds[p]| && fds[p][k].used
        invariant 0 <= k <= |fds[p]|
        invariant forall j | 0 <= j < k :: fds[p][j].used
      {
        k := k + 1;
      }
      FirstFree(fds[p], k);
      r := if k < |fds[p]| then Some(k) else None;
    }

    /** The file part of open. */
    method Resolve(name: seq<u8>, write: bool) returns (r: Option<nat>)
      requires Valid() && 0 < |name| <= NAME_MAX && (write ==> Wholesome(name))
      modifies fs`nextFree, fs.disk, fs.dir
      ensures fs.Valid() && Opened(fs.Volume(), r) == OpenFile(old(fs.Volume()), Stem(name), write)
    {
      hide FsOk, VolOf, Lookup, VolOk, Wholesome;
      r := fs.Find(name);
      if write {
        if r.Some? {
          fs.Truncate(r.value);
        } else {
          r := fs.Create(name);
        }
      }
    }

    method Open(p: nat, name: seq<u8>, write: bool) returns (rax: int)
      requires Valid() && CallOk(Call.Open(p, name, write))
      modifies this, fs`nextFree, fs.disk, fs.dir
      ensures Valid() && Ret(State(), rax) == SOpen(old(State()), p, name, write)
    {
      hide VolOk, OpenFile, FreeFd, FsOk, VolOf, Wholesome;
      StepOk(State(), Call.Open(p, name, write));
      rax := FAIL;
      if 0 < |name| <= NAME_MAX {
        var r := Resolve(name, write);
        if r.Some? {
          var k := Position(p);
          if k.Some? {
            SetFd(p, k.value, Fd(true, r.value, 0, write));
            rax := k.value + 2;
          }
        }
      }
    }

    method Close(p: nat, n: nat) returns (rax: int)
      requires Valid() && p < NPROC
      modifies this
      ensures Valid() && Ret(State(), rax) == SClose(old(State()), p, n)
    {
      hide VolOk, FsOk, VolOf;
      StepOk(State(), Call.Close(p, n));
      if 2 <= n < 6 && fds[p][n - 2].used {
        SetFd(p, n - 2, EMPTY_FD);
        return 0;
      }
      return FAIL;
    }

    method Fread(p: nat, n: nat) returns (rax: int)
      requires Valid() && p < NPROC
      modifies this
      ensures Valid() && Ret(State(), rax) == SFread(old(State()), p, n)
    {
      hide VolOk, FsOk, VolOf;
      StepOk(State(), Call.Fread(p, n));
      rax := FAIL;
      if 2 <= n < 6 {
        var fd := fds[p][n - 2];
        if fd.used && !fd.write {
          assert FdOk(State().vol, State().fds[p][n - 2]);
          var b := fs.ReadAt(fd.dir, fd.pos);
          if b.Some? {
            SetFd(p, n - 2, fd.(pos := fd.pos + 1));
            rax := b.value;
          }
        }
      }
    }

    method Fwrite(p: nat, n: nat, b: u8) returns (rax: int)
      requires Valid() && p < NPROC
      modifies this, fs.disk, fs.dir
      ensures Valid() && Ret(State(), rax) == SFwrite(old(State()), p, n, b)
    {
      hide VolOk, FsOk, VolOf;
      StepOk(State(), Call.Fwrite(p, n, b));
      rax := FAIL;
      if 2 <= n < 6 {
        var fd := fds[p][n - 2];
        if fd.used && fd.write {
          assert FdOk(State().vol, State().fds[p][n - 2]);
          var ok := fs.WriteAt(fd.dir, fd.pos, b);
          if ok {
            SetFd(p, n - 2, fd.(pos := fd.pos + 1));
            rax := 0;
          }
        }
      }
    }

    /** fork's child inherits the parent's open files; spawn starts with none. */
    method Inherit(p: nat, child: nat)
      requires Valid() && p < NPROC && child < NPROC
      modifies this
      ensures Valid() && State() == SStep(old(State()), Fork(p, child)).s
    {
      hide VolOk, FsOk, VolOf;
      StepOk(State(), Fork(p, child));
      fds := fds[child := fds[p]];
    }

    method Reset(p: nat)
      requires Valid() && p < NPROC
      modifies this
      ensures Valid() && State() == SStep(old(State()), Spawn(p)).s
    {
      hide VolOk, FsOk, VolOf;
      StepOk(State(), Spawn(p));
      fds := fds[p := NoFds()];
    }

    /** exec_file: the image is the file's content, cut off at 4096 bytes; None when there is no
        such file. */
    method Image(name: seq<u8>) returns (image: Option<seq<u8>>)
      requires Valid()
      ensures image == if 0 < |name| <= NAME_MAX && Lookup(State().vol.files, Stem(name)).Some?
        then Some(Contents(State().vol, Lookup(State().vol.files, Stem(name)).value)) else None
    {
      hide FsOk, VolOf, Lookup;
      image := None;
      if 0 < |name| <= NAME_MAX {
        var r := fs.Find(name);
        if r.Some? {
          var buf := new u8[4096](_ => 0);
          var n := fs.ReadFile(r.value, buf);
          ghost var content := Contents(fs.Volume(), r.value);
          assert buf[..n] == buf[..][..n] == content[..n] == content;
          image := Some(buf[..n]);
        }
      }
    }

    /** One call of the kernel, whichever it is. */
    method Do(c: Call) returns (rax: int)
      requires Valid() && CallOk(c) && !c.Remount?
      modifies this, fs`nextFree, fs.disk, fs.dir
      ensures Valid() && Ret(State(), rax) == SStep(old(State()), c)
    {
      hide VolOk, FsOk, VolOf, SOpen, SClose, SFread, SFwrite;
      rax := 0;
      match c {
        case Open(p, name, write) => rax := Open(p, name, write);
        case Close(p, n) => rax := Close(p, n);
        case Fread(p, n) => rax := Fread(p, n);
        case Fwrite(p, n, b) => rax := Fwrite(p, n, b);
        case Fork(p, child) => Inherit(p, child);
        case Spawn(p) => Reset(p);
      }
    }

    /** A whole history of calls, by any processes: the state and every answer are those of the
        specification. */
    method DoAll(cs: seq<Call>) returns (rets: seq<int>)
      requires Valid() && CallsOk(cs) && forall k | 0 <= k < |cs| :: !cs[k].Remount?
      modifies this, fs`nextFree, fs.disk, fs.dir
      ensures Valid() && State() == Play(old(State()), cs) && rets == Answers(old(State()), cs)
    {
      hide VolOk, FsOk, VolOf, SStep, FilesOk, CallOk;
      rets := [];
      for k := 0 to |cs|
        invariant Valid() && CallsOk(cs[..k]) && FilesOk(old(State()))
        invariant State() == Play(old(State()), cs[..k]) && rets == Answers(old(State()), cs[..k])
      {
        PlayMore(old(State()), cs[..k], cs[k]);
        var rax := Do(cs[k]);
        rets := rets + [rax];
        assert cs[..k + 1] == cs[..k] + [cs[k]];
      }
      assert cs[..|cs|] == cs;
    }
  }

  lemma FirstFree(fds: seq<Fd>, k: nat)
    requires k <= |fds| && forall j | 0 <= j < k :: fds[j].used
    requires k < |fds| ==> !fds[k].used
    ensures FreeFd(fds) == if k < |fds| then Some(k) else None
  {
    var r := FreeFd(fds);
    assert r.Some? ==> r.value == k;
  }

  /** Unplug a mounted disk between operations and mount it on another machine: the same files, and
      no descriptor open. */
  method Remounted(t: FileTable, seedProg: seq<u8>) returns (t': FileTable)
    requires t.Valid()
    ensures fresh(t') && t'.Valid() && t'.State() == SStep(t.State(), Remount).s
  {
    hide FsOk, VolOf, VolOk;
    var fs := new Fs(t.fs.disk[..], true);
    LeftClean(t.fs.disk[..], t.fs.dir[..], t.fs.nextFree, t.fs.Count());
    var n := fs.Init(seedProg);
    t' := new FileTable(fs);
  }
}
