// What each file call does, in terms of descriptors and files: which descriptor
// it returns or frees, which byte it reads or writes, and what it leaves alone.

module FileLaws {
  import opened Options
  import opened Bytes
  import opened MikFsLayout
  import opened MikFs
  import opened FileCalls

  /** Every descriptor but number n of process p is as it was. */
  predicate FdsSame(s: Files, t: Files, p: nat, n: nat) {
    && |t.fds| == |s.fds| == NPROC
    && forall q | 0 <= q < NPROC :: |t.fds[q]| == |s.fds[q]| == NFDS
         && forall k | 0 <= k < NFDS && !(q == p && k + 2 == n) :: t.fds[q][k] == s.fds[q][k]
  }

  /** Every file but i is as it was: name, length and content; and i keeps its name. */
  ghost predicate FilesSame(v: Vol, w: Vol, i: nat) {
    && VolOk(v) && VolOk(w) && |v.files| <= |w.files|
    && forall j | 0 <= j < |v.files| :: w.files[j].name == v.files[j].name && (j != i ==> Contents(w, j) == Contents(v, j))
  }

  lemma SameAll(v: Vol, i: nat)
    requires VolOk(v)
    ensures FilesSame(v, v, i)
  {}

  // ---- close ---------------------------------------------------------------------------------------

  /** close returns 0 exactly for an open descriptor, and -1 otherwise.  After it the descriptor is not
      open: reading and writing through it fail and change nothing.  Nothing else changes. */
  lemma CloseMeans(s: Files, p: nat, n: nat)
    requires FilesOk(s) && p < NPROC
    ensures var r := SStep(s, Close(p, n));
      && (if 2 <= n <= 5 && s.fds[p][n - 2].used then r.rax == 0 else r.rax == -1)
      && FilesOk(r.s) && !IsOpen(r.s, p, n) && r.s.vol == s.vol && FdsSame(s, r.s, p, n)
      && SStep(r.s, Fread(p, n)) == Ret(r.s, -1) && forall b: u8 :: SStep(r.s, Fwrite(p, n, b)) == Ret(r.s, -1)
  {
    hide VolOk, Written, OpenFile, FreeFd;
    StepOk(s, Close(p, n));
  }

  /** After a close that returned 0 an open does not fail for want of a descriptor: if the file is there,
      or it is to be created and there is room, it succeeds. */
  lemma CloseFrees(s: Files, p: nat, n: nat, name: seq<u8>, write: bool)
    requires FilesOk(s) && p < NPROC && SStep(s, Close(p, n)).rax == 0
    requires CallOk(Open(p, name, write)) && 0 < |name| <= 24
    requires (exists i :: 0 <= i < |s.vol.files| && s.vol.files[i].name == Stem(name)) || (write && |s.vol.files| < 32)
    ensures FilesOk(SStep(s, Close(p, n)).s) && 2 <= SStep(SStep(s, Close(p, n)).s, Open(p, name, write)).rax <= n
  {
    hide VolOk, Stem;
    StepOk(s, Close(p, n));
    var t := SStep(s, Close(p, n)).s;
    assert !t.fds[p][n - 2].used;
    assert FreeFd(t.fds[p]).Some?;
  }

  // ---- open ----------------------------------------------------------------------------------------

  /** k is the lowest unused descriptor of process p. */
  predicate LowestUnused(s: Files, p: nat, k: nat)
    requires p < |s.fds|
  {
    k < |s.fds[p]| && !s.fds[p][k].used && forall j | 0 <= j < k :: s.fds[p][j].used
  }

  /** The file part of open can be done: the file is there, or is to be created and there is room. */
  predicate CanOpen(v: Vol, name: seq<u8>, write: bool) {
    (exists i :: 0 <= i < |v.files| && v.files[i].name == Stem(name)) || (write && |v.files| < 32)
  }

  /** open succeeds exactly for a name of 1 to 24 bytes whose file part can be done when a descriptor is
      unused; it takes the lowest, on the file of that name, at its start, and changes no other. */
  lemma OpenMeans(s: Files, p: nat, name: seq<u8>, write: bool)
    requires FilesOk(s) && CallOk(Open(p, name, write))
    ensures var r := SStep(s, Open(p, name, write));
      && FilesOk(r.s)
      && (if 0 < |name| <= 24 && CanOpen(s.vol, name, write) && exists k: nat :: LowestUnused(s, p, k) then
            && r.rax >= 2 && LowestUnused(s, p, r.rax - 2) && FdsSame(s, r.s, p, r.rax)
            && var fd := r.s.fds[p][r.rax - 2];
            && fd.used && fd.pos == 0 && fd.write == write && fd.dir < |r.s.vol.files| && r.s.vol.files[fd.dir].name == Stem(name)
          else r.rax == -1 && r.s.fds == s.fds)
  {
    hide VolOk, Stem, Lookup;
    StepOk(s, Open(p, name, write));
    FreeIs(s, p);
    if 0 < |name| <= NAME_MAX {
      OpenKeeps(s.vol, Stem(name), write);
      CanIs(s.vol, name, write);
    }
    hide OpenFile, FreeFd;
  }

  lemma FreeIs(s: Files, p: nat)
    requires p < |s.fds|
    ensures var k := FreeFd(s.fds[p]); (exists j: nat :: LowestUnused(s, p, j)) <==> k.Some?
    ensures var k := FreeFd(s.fds[p]); k.Some? ==> LowestUnused(s, p, k.value)
  {
    var k := FreeFd(s.fds[p]);
    if k.Some? {
      assert LowestUnused(s, p, k.value);
    }
  }

  lemma CanIs(v: Vol, name: seq<u8>, write: bool)
    ensures OpenFile(v, Stem(name), write).dir.Some? <==> CanOpen(v, name, write)
  {
    hide Stem;
  }

  /** What open does to the volume, whether or not a descriptor is left: nothing for reading; for writing
      it empties the file of that name, or adds an empty one at the end if there is room. */
  lemma OpenFiles(s: Files, p: nat, name: seq<u8>, write: bool)
    requires FilesOk(s) && CallOk(Open(p, name, write)) && 0 < |name| <= 24
    ensures var v, w := s.vol, SStep(s, Open(p, name, write)).s.vol;
      && VolOk(v) && VolOk(w)
      && (!write || !CanOpen(v, name, write) ==> w == v)
      && (write ==> forall i | 0 <= i < |v.files| && v.files[i].name == Stem(name) ::
            |w.files| == |v.files| && FilesSame(v, w, i) && Contents(w, i) == [])
      && (write && |v.files| < 32 && (forall i | 0 <= i < |v.files| :: v.files[i].name != Stem(name)) ==>
            |w.files| == |v.files| + 1 && FilesSame(v, w, |v.files|) && w.files[|v.files|].name == Stem(name)
            && Contents(w, |v.files|) == [])
  {
    hide FreeFd, Stem, Lookup, VolOk, Truncated, Created, Contents, FilesSame;
    StepOk(s, Open(p, name, write));
    var v := s.vol;
    if write {
      LookupNone(v.files, Stem(name));
      forall i | 0 <= i < |v.files| && v.files[i].name == Stem(name) ensures Lookup(v.files, Stem(name)) == Some(i) {
        FoundAlone(v, Stem(name), i);
      }
      if Lookup(v.files, Stem(name)).Some? {
        TruncatedMeans(v, Lookup(v.files, Stem(name)).value);
      } else if |v.files| < 32 {
        CreatedMeans(v, Stem(name));
      }
    }
  }

  lemma FoundAlone(v: Vol, name: seq<u8>, i: nat)
    requires VolOk(v) && i < |v.files| && v.files[i].name == name
    ensures Lookup(v.files, name) == Some(i)
  {
    forall j | 0 <= j < |v.files| && j != i ensures v.files[j].name != name {
      assert v.files[if i < j then i else j].name != v.files[if i < j then j else i].name;
    }
    LookupOnly(v.files, name, i);
  }

  lemma TruncatedMeans(v: Vol, i: nat)
    requires VolOk(v) && i < |v.files|
    ensures var w := Truncated(v, i); VolOk(w) && |w.files| == |v.files| && FilesSame(v, w, i) && Contents(w, i) == []
  {
    var w := Truncated(v, i);
    forall j, k | 0 <= j < k < |w.files| ensures w.files[j].name != w.files[k].name {
      assert v.files[j].name != v.files[k].name;
    }
  }

  lemma CreatedMeans(v: Vol, name: seq<u8>)
    requires VolOk(v) && VolOk(Created(v, name))
    ensures var w, n := Created(v, name), |v.files|;
      |w.files| == n + 1 && FilesSame(v, w, n) && w.files[n].name == name && Contents(w, n) == []
  {}

  // ---- fread and fwrite -------------------------------------------------------------------------------

  /** The byte at the cursor of a descriptor open for reading, if the file goes that far. */
  ghost function NextByte(s: Files, p: nat, n: nat): Option<u8>
    requires FilesOk(s) && p < NPROC
  {
    if 2 <= n <= 5 && s.fds[p][n - 2].used && !s.fds[p][n - 2].write then
      var fd := s.fds[p][n - 2];
      assert FdOk(s.vol, fd);
      var content := Contents(s.vol, fd.dir);
      if fd.pos < |content| then Some(content[fd.pos]) else None
    else None
  }

  /** fread returns that byte, and the cursor moves on by one; where there is none it returns -1 and
      changes nothing. */
  lemma FreadMeans(s: Files, p: nat, n: nat)
    requires FilesOk(s) && p < NPROC
    ensures var r, b := SStep(s, Fread(p, n)), NextByte(s, p, n);
      if b.Some? then
        && r.rax == b.value && r.s.vol == s.vol && FdsSame(s, r.s, p, n)
        && r.s.fds[p][n - 2] == s.fds[p][n - 2].(pos := s.fds[p][n - 2].pos + 1)
      else r == Ret(s, -1)
  {
    if IsOpen(s, p, n) {
      assert FdOk(s.vol, s.fds[p][n - 2]);
    }
  }

  /** fwrite through a descriptor open for writing puts one byte at its cursor, up to 4096, and moves it
      on: the file is as long as before or ends behind that byte, and every other byte of it and every
      other file is as it was.  Otherwise it returns -1 and changes nothing. */
  lemma FwriteMeans(s: Files, p: nat, n: nat, b: u8)
    requires FilesOk(s) && p < NPROC
    ensures var r := SStep(s, Fwrite(p, n, b));
      if 2 <= n <= 5 && s.fds[p][n - 2].used && s.fds[p][n - 2].write && s.fds[p][n - 2].pos < 4096 then
        var fd := s.fds[p][n - 2];
        && r.rax == 0 && FdsSame(s, r.s, p, n) && r.s.fds[p][n - 2] == fd.(pos := fd.pos + 1)
        && |r.s.vol.files| == |s.vol.files| && FilesSame(s.vol, r.s.vol, fd.dir) && fd.dir < |s.vol.files|
        && BytePut(Contents(s.vol, fd.dir), Contents(r.s.vol, fd.dir), fd.pos, b)
      else r == Ret(s, -1)
  {
    StepOk(s, Fwrite(p, n, b));
    if IsOpen(s, p, n) {
      assert FdOk(s.vol, s.fds[p][n - 2]);
    }
  }

  /** t is s with b at pos, longer if pos is not in s. */
  predicate BytePut(s: seq<u8>, t: seq<u8>, pos: nat, b: u8) {
    && |t| == (if pos < |s| then |s| else pos + 1) && t[pos] == b
    && forall k | 0 <= k < |s| && k != pos :: t[k] == s[k]
  }

  // ---- fork, spawn, remount ----------------------------------------------------------------------------

  /** A forked child has its parent's descriptors; a spawned process has none open; after a remount
      nobody has, and in all three cases the files are as they were. */
  lemma TablesMean(s: Files, p: nat, child: nat, q: nat, n: nat)
    requires FilesOk(s) && p < NPROC && child < NPROC && q < NPROC
    ensures var r := SStep(s, Fork(p, child));
      r.s.vol == s.vol && |r.s.fds| == NPROC && r.s.fds[q] == s.fds[if q == child then p else q]
    ensures var r := SStep(s, Spawn(p));
      r.s.vol == s.vol && |r.s.fds| == NPROC && if q == p then !IsOpen(r.s, q, n) else r.s.fds[q] == s.fds[q]
    ensures var r := SStep(s, Remount); r.s.vol == s.vol && |r.s.fds| == NPROC && !IsOpen(r.s, q, n)
  {}

  // ---- The disk ------------------------------------------------------------------------------------------

  function At(disk: seq<Sector>, lba: nat, pos: nat): nat
    requires lba + pos / 512 < |disk|
  {
    disk[lba + pos / 512][pos % 512]
  }

  function Little(a: nat, b: nat, c: nat, d: nat): nat { a + 0x100 * b + 0x1_0000 * c + 0x100_0000 * d }

  /** The number in four bytes, the lowest first. */
  function Four(disk: seq<Sector>, lba: nat, pos: nat): nat
    requires lba + (pos + 3) / 512 < |disk|
  {
    Little(At(disk, lba, pos), At(disk, lba, pos + 1), At(disk, lba, pos + 2), At(disk, lba, pos + 3))
  }

  lemma FourIs(b: seq<u8>)
    requires |b| == 4
    ensures LeWord(b) == Little(b[0], b[1], b[2], b[3])
  {
    assert b[1..][1..] == b[2..] && b[2..][1..] == b[3..] && b[3..][1..] == [];
    assert LeWord(b) == b[0] + 256 * LeWord(b[1..]);
    assert LeWord(b[1..]) == b[1] + 256 * LeWord(b[2..]);
    assert LeWord(b[2..]) == b[2] + 256 * LeWord(b[3..]);
  }

  lemma DirByte(disk: seq<Sector>, dir: seq<u8>, nextFree: nat, pos: nat)
    requires Synced(disk, dir, nextFree) && pos < 1024
    ensures At(disk, 257, pos) == dir[pos]
  {
    ExtentByte(disk, 257, 2, pos);
  }

  lemma DirFour(disk: seq<Sector>, dir: seq<u8>, nextFree: nat, pos: nat)
    requires Synced(disk, dir, nextFree) && pos + 4 <= 1024
    ensures Four(disk, 257, pos) == LeWord(dir[pos..pos + 4])
  {
    DirByte(disk, dir, nextFree, pos);
    DirByte(disk, dir, nextFree, pos + 1);
    DirByte(disk, dir, nextFree, pos + 2);
    DirByte(disk, dir, nextFree, pos + 3);
    FourIs(dir[pos..pos + 4]);
  }

  lemma Slices<T>(s: seq<T>, at: nat, n: nat, a: nat, b: nat)
    requires a <= b <= n && at + n <= |s|
    ensures s[at..at + n][a..b] == s[at + a..at + b]
  {
    var x, y := s[at..at + n][a..b], s[at + a..at + b];
    assert |x| == |y| == b - a;
    forall k | 0 <= k < b - a ensures x[k] == y[k] {
      assert x[k] == s[at..at + n][a + k] == s[at + (a + k)];
    }
  }

  /** Byte k of the entry of file i, on the disk. */
  function EntByte(disk: seq<Sector>, i: nat, k: nat): nat
    requires |disk| == DISK_SECTORS && i < 32 && k < 32
  {
    At(disk, 257, 32 * i + k)
  }

  /** A directory entry in its bytes. */
  lemma EntryBytes(disk: seq<Sector>, dir: seq<u8>, nextFree: nat, n: nat, i: nat)
    requires FsOk(disk, dir, nextFree, n) && i < n
    ensures var f := FileOf(dir, i);
      && |f.name| <= 24 && (forall k | 0 <= k < 24 :: EntByte(disk, i, k) == if k < |f.name| then f.name[k] as int else 0)
      && LeWord(dir[32 * i + 24..32 * i + 28]) == 260 + 8 * i && LeWord(dir[32 * i + 28..32 * i + 32]) == f.len
  {
    assert LiveAt(dir, i);
    var e := Entry(dir, i);
    Slices(dir, 32 * i, 32, 24, 28);
    Slices(dir, 32 * i, 32, 28, 32);
    var name := EntName(e);
    assert e[..24] == name + Zeros(24 - |name|);
    forall k | 0 <= k < 24 ensures EntByte(disk, i, k) == if k < |name| then name[k] as int else 0 {
      DirByte(disk, dir, nextFree, 32 * i + k);
      assert e[..24][k] == dir[32 * i + k];
    }
  }

  /** A volume on its disk: sector 256 begins with MIKFS001 and the first free sector; the entry of file i,
      32 bytes from sector 257 on, holds its name to the first NUL or 24 bytes, its first sector and its
      length; and its bytes lie from that sector on. */
  lemma DiskBytes(disk: seq<Sector>, dir: seq<u8>, nextFree: nat, n: nat, i: nat)
    requires FsOk(disk, dir, nextFree, n) && i < n
    ensures |disk| == 2048 && disk[256][..8] == [77, 73, 75, 70, 83, 48, 48, 49]
    ensures Four(disk, 256, 8) == 260 + 8 * n
    ensures var f, v := VolOf(disk, dir, n).files[i], VolOf(disk, dir, n);
      && VolOk(v) && 0 < |f.name| <= 24 && 0 !in f.name
      && (forall k | 0 <= k < 24 :: EntByte(disk, i, k) == if k < |f.name| then f.name[k] as int else 0)
      && Four(disk, 257, 32 * i + 24) == 260 + 8 * i && Four(disk, 257, 32 * i + 28) == f.len
      && forall pos | 0 <= pos < f.len :: Contents(v, i)[pos] as int == At(disk, 260 + 8 * i, pos)
  {
    hide Name, Extent, LeWord, At, EntByte, Four, DirOk, VolOk;
    FsOkVol(disk, dir, nextFree, n);
    EntryBytes(disk, dir, nextFree, n, i);
    DirFour(disk, dir, nextFree, 32 * i + 24);
    DirFour(disk, dir, nextFree, 32 * i + 28);
    HeadFour(disk);
    VolFile(disk, dir, nextFree, n, i);
  }

  lemma HeadFour(disk: seq<Sector>)
    requires |disk| == DISK_SECTORS
    ensures Four(disk, 256, 8) == LeWord(disk[256][8..12])
  {
    FourIs(disk[256][8..12]);
  }

  lemma VolFile(disk: seq<Sector>, dir: seq<u8>, nextFree: nat, n: nat, i: nat)
    requires FsOk(disk, dir, nextFree, n) && i < n && VolOk(VolOf(disk, dir, n))
    ensures var v := VolOf(disk, dir, n);
      && |v.files| == n && v.files[i] == FileOf(dir, i) && NameOk(v.files[i].name)
      && forall pos | 0 <= pos < v.files[i].len :: Contents(v, i)[pos] as int == At(disk, 260 + 8 * i, pos)
  {
    var v := VolOf(disk, dir, n);
    forall pos | 0 <= pos < v.files[i].len ensures Contents(v, i)[pos] as int == At(disk, 260 + 8 * i, pos) {
      ExtentByte(disk, 260 + 8 * i, 8, pos);
    }
  }
}
