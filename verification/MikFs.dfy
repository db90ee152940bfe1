// Mik-FS itself: a cached directory and a bump pointer over a disk of sectors,
// every mutation written through at once, proved to be operations on a volume
// of named files.

module MikFs {
  import opened Options
  import opened Bytes
  import opened MikFsLayout

  // ---- What the operations mean ------------------------------------------------------

  /** The file of that name. */
  function Lookup(files: seq<File>, name: seq<u8>): (r: Option<nat>)
    ensures r.Some? ==> r.value < |files| && files[r.value].name == name
    ensures r.None? ==> forall i | 0 <= i < |files| :: files[i].name != name
  {
    if files == [] then None
    else if files[|files| - 1].name == name then Some(|files| - 1)
    else Lookup(files[..|files| - 1], name)
  }

  function Created(v: Vol, name: seq<u8>): Vol { v.(files := v.files + [File(name, 0)]) }

  function Truncated(v: Vol, i: nat): Vol
    requires i < |v.files|
  {
    v.(files := v.files[i := v.files[i].(len := 0)])
  }

  /** Byte b at pos of file i, which grows to cover it. */
  function Written(v: Vol, i: nat, pos: nat, b: u8): Vol
    requires i < |v.files| && i < |v.data| && pos < |v.data[i]|
  {
    Vol(v.files[i := v.files[i].(len := if pos < v.files[i].len then v.files[i].len else pos + 1)],
        v.data[i := PutByte(v.data[i], pos, b)])
  }

  function ByteAt(v: Vol, i: nat, pos: nat): Option<u8>
    requires VolOk(v) && i < |v.files|
  {
    if pos < v.files[i].len then Some(v.data[i][pos]) else None
  }

  /** The readable bytes of file i. */
  function Contents(v: Vol, i: nat): (s: seq<u8>)
    requires VolOk(v) && i < |v.files|
    ensures |s| == v.files[i].len
  {
    v.data[i][..v.files[i].len]
  }

  /** A disk some mounted Mik-FS was cleanly left on, with n files. */
  ghost predicate DiskOk(disk: seq<Sector>, n: nat) {
    |disk| == DISK_SECTORS && FsOk(disk, Extent(disk, DIR_LBA, 2), LeWord(disk[SB_LBA][8..12]), n)
  }

  function DiskVol(disk: seq<Sector>, n: nat): Vol
    requires |disk| == DISK_SECTORS && n <= MAX_FILES
  {
    VolOf(disk, Extent(disk, DIR_LBA, 2), n)
  }

  /** How much of n bytes an extent takes. */
  function Fit(n: nat): nat { if n <= FILE_CAP then n else FILE_CAP }

  /** "hello.txt" and "Hello from Mik-FS\n". */
  function HelloName(): seq<u8> { [104, 101, 108, 108, 111, 46, 116, 120, 116] }
  function HelloText(): seq<u8> {
    [72, 101, 108, 108, 111, 32, 102, 114, 111, 109, 32, 77, 105, 107, 45, 70, 83, 10]
  }

  // ---- Steps of the proofs about one entry ---------------------------------------------

  /** Live entries other than i keep what the directory invariant says of them. */
  lemma SetEntryDirOk(dir: seq<u8>, n: nat, i: nat, e: seq<u8>)
    requires DirOk(dir, n) && i < n && |e| == ENT
    requires e[0] != 0 && Padded(e) && EntSector(e) == DATA_LBA + 8 * i && EntLen(e) <= FILE_CAP
    requires EntName(e) == EntName(Entry(dir, i))
    ensures DirOk(SetEntry(dir, i, e), n)
    ensures FilesOf(SetEntry(dir, i, e), n) == FilesOf(dir, n)[i := File(EntName(e), EntLen(e))]
  {
    hide EntName, EntSector, EntLen, Entry, SetEntry, Padded;
    var dir' := SetEntry(dir, i, e);
    forall j | 0 <= j < MAX_FILES ensures Entry(dir', j) == if j == i then e else Entry(dir, j) {
      SetEntryAt(dir, i, e, j);
    }
    forall j | 0 <= j < n ensures LiveAt(dir', j) {
      assert LiveAt(dir, j);
    }
  }

  /** A new live entry after the others. */
  lemma AddEntryDirOk(dir: seq<u8>, n: nat, e: seq<u8>)
    requires DirOk(dir, n) && n < MAX_FILES && |e| == ENT
    requires e[0] != 0 && Padded(e) && EntSector(e) == DATA_LBA + 8 * n && EntLen(e) <= FILE_CAP
    requires forall j | 0 <= j < n :: EntName(Entry(dir, j)) != EntName(e)
    ensures DirOk(SetEntry(dir, n, e), n + 1)
  {
    hide EntName, EntSector, EntLen, Entry, SetEntry, Padded;
    var dir' := SetEntry(dir, n, e);
    forall j | 0 <= j < MAX_FILES ensures Entry(dir', j) == if j == n then e else Entry(dir, j) {
      SetEntryAt(dir, n, e, j);
    }
    forall j | 0 <= j < n ensures LiveAt(dir', j) {
      assert LiveAt(dir, j);
    }
    assert LiveAt(dir', n);
  }

  lemma AddEntryFiles(dir: seq<u8>, n: nat, e: seq<u8>)
    requires |dir| == MAX_FILES * ENT && n < MAX_FILES && |e| == ENT
    ensures FilesOf(SetEntry(dir, n, e), n + 1) == FilesOf(dir, n) + [File(EntName(e), EntLen(e))]
  {
    hide EntName, EntLen, Entry, SetEntry;
    forall j | 0 <= j < MAX_FILES ensures Entry(SetEntry(dir, n, e), j) == if j == n then e else Entry(dir, j) {
      SetEntryAt(dir, n, e, j);
    }
  }

  /** `create` on a directory of n files makes the file it was asked for, and leaves a sound
      directory, exactly when the name is new and has no NUL in it. */
  lemma CreateExact(dir: seq<u8>, n: nat, name: seq<u8>)
    requires DirOk(dir, n) && n < MAX_FILES && 0 < |name| <= NAME_MAX
    ensures var dir' := SetEntry(dir, n, NewEntry(name, DATA_LBA + 8 * n));
      (DirOk(dir', n + 1) && FilesOf(dir', n + 1) == FilesOf(dir, n) + [File(name, 0)])
      <==> (0 !in name && forall i | 0 <= i < n :: FilesOf(dir, n)[i].name != name)
  {
    hide EntName, EntSector, EntLen, SetEntry, NewEntry, Padded;
    var first := DATA_LBA + 8 * n;
    var e := NewEntry(name, first);
    var dir' := SetEntry(dir, n, e);
    NewEntryFields(name, first);
    NewEntryPadded(name, first);
    if 0 !in name { StemPlain(name); }
    AddEntryFiles(dir, n, e);
    var files := FilesOf(dir, n);
    assert (files + [File(EntName(e), EntLen(e))])[n] == File(EntName(e), EntLen(e));
    assert (files + [File(name, 0)])[n] == File(name, 0);
    if 0 !in name {
      if forall i | 0 <= i < n :: files[i].name != name {
        forall j | 0 <= j < n ensures EntName(Entry(dir, j)) != EntName(e) {
          assert files[j].name != name;
        }
        AddEntryDirOk(dir, n, e);
      } else {
        var i :| 0 <= i < n && files[i].name == name;
        SetEntryAt(dir, n, e, i);
        SetEntryAt(dir, n, e, n);
      }
    }
  }

  /** For any name: `create` leaves a sound directory exactly when the name without its trailing NULs
      is non-empty, has no NUL and is new; the file made has that name. */
  lemma CreateSound(dir: seq<u8>, n: nat, name: seq<u8>)
    requires DirOk(dir, n) && n < MAX_FILES && 0 < |name| <= NAME_MAX
    ensures var dir' := SetEntry(dir, n, NewEntry(name, DATA_LBA + 8 * n));
      && (DirOk(dir', n + 1) <==> Wholesome(name) && forall i | 0 <= i < n :: FilesOf(dir, n)[i].name != Stem(name))
      && (DirOk(dir', n + 1) ==> FilesOf(dir', n + 1) == FilesOf(dir, n) + [File(Stem(name), 0)])
  {
    hide EntName, EntSector, EntLen, SetEntry, NewEntry, Padded, Wholesome;
    var first := DATA_LBA + 8 * n;
    var e := NewEntry(name, first);
    var dir' := SetEntry(dir, n, e);
    NewEntryFields(name, first);
    NewEntryPadded(name, first);
    AddEntryFiles(dir, n, e);
    SetEntryAt(dir, n, e, n);
    var files := FilesOf(dir, n);
    if DirOk(dir', n + 1) {
      assert LiveAt(dir', n);
      forall i | 0 <= i < n ensures files[i].name != Stem(name) {
        SetEntryAt(dir, n, e, i);
        assert EntName(Entry(dir', i)) != EntName(Entry(dir', n));
      }
    }
    if Wholesome(name) && forall i | 0 <= i < n :: files[i].name != Stem(name) {
      forall j | 0 <= j < n ensures EntName(Entry(dir, j)) != EntName(e) {
        assert files[j].name != Stem(name);
      }
      AddEntryDirOk(dir, n, e);
    }
  }

  /** The assumption is needed: the entry created for "a\0b" also answers to "a", and the slot of
      one created for "\0a" still looks free. */
  lemma NulNamesFail(first: nat)
    requires first < 0x1_0000_0000
    ensures Matches(NewEntry([97, 0, 98], first), [97, 0, 98]) && Matches(NewEntry([97, 0, 98], first), [97])
    ensures NewEntry([0, 97], first)[0] == 0
  {
    var e := NewEntry([97, 0, 98], first);
    assert e[..3] == [97, 0, 98] && e[..1] == [97];
    assert e[3] == 0;
  }

  /** Sectors outside the extents do not show in them. */
  lemma ExtentsFrame(disk: seq<Sector>, disk': seq<Sector>, n: nat)
    requires |disk| == |disk'| == DISK_SECTORS && n <= MAX_FILES
    requires forall s | DATA_LBA <= s < DATA_LBA + 8 * MAX_FILES :: disk'[s] == disk[s]
    ensures ExtentsOf(disk', n) == ExtentsOf(disk, n)
  {
    forall i | 0 <= i < n ensures ExtentsOf(disk', n)[i] == ExtentsOf(disk, n)[i] {
      ExtentFrame(disk, disk', DATA_LBA + 8 * i, 8);
    }
  }

  /** A sector of extent i shows in extent i alone. */
  lemma ExtentsWrite(disk: seq<Sector>, i: nat, pos: nat, b: u8)
    requires |disk| == DISK_SECTORS && i < MAX_FILES && pos < FILE_CAP
    ensures var s := DATA_LBA + 8 * i + pos / 512;
      var disk' := disk[s := PutByte(disk[s], pos % 512, b)];
      ExtentsOf(disk', MAX_FILES) == ExtentsOf(disk, MAX_FILES)[i := PutByte(ExtentsOf(disk, MAX_FILES)[i], pos, b)]
  {
    var s := DATA_LBA + 8 * i + pos / 512;
    var disk' := disk[s := PutByte(disk[s], pos % 512, b)];
    forall j | 0 <= j < MAX_FILES
      ensures ExtentsOf(disk', MAX_FILES)[j]
           == ExtentsOf(disk, MAX_FILES)[i := PutByte(ExtentsOf(disk, MAX_FILES)[i], pos, b)][j]
    {
      if j == i {
        ExtentWrite(disk, DATA_LBA + 8 * i, 8, pos, b);
      } else {
        ExtentFrame(disk, disk', DATA_LBA + 8 * j, 8);
      }
    }
  }

  /** Sectors outside the superblock and directory do not unsync them. */
  lemma SyncFrame(disk: seq<Sector>, disk': seq<Sector>, dir: seq<u8>, nextFree: nat)
    requires Synced(disk, dir, nextFree) && |disk'| == DISK_SECTORS
    requires forall s | SB_LBA <= s < DATA_LBA :: disk'[s] == disk[s]
    ensures Synced(disk', dir, nextFree)
  {
    ExtentFrame(disk, disk', DIR_LBA, 2);
  }

  class Fs {
    /** The boot disk, a reliable array of sectors. */
    const disk: array<Sector>
    const diskPresent: bool
    const dir: array<u8>
    var present: bool
    var nextFree: int

    predicate Shape() { disk.Length == DISK_SECTORS && dir.Length == MAX_FILES * ENT && (disk as object) != dir }

    /** Live files; the bump pointer counts them. */
    ghost function Count(): int
      reads this
    {
      (nextFree - DATA_LBA) / 8
    }

    /** Mounted and in step with the disk. */
    ghost predicate Valid()
      reads this, disk, dir
    {
      Shape() && present && nextFree >= DATA_LBA && FsOk(disk[..], dir[..], nextFree, Count())
    }

    ghost function Volume(): (v: Vol)
      requires Valid()
      reads this, disk, dir
      ensures VolOk(v) && |v.files| == Count() && nextFree == DATA_LBA + 8 * |v.files| <= 516
    {
      FsOkVol(disk[..], dir[..], nextFree, Count());
      VolOf(disk[..], dir[..], Count())
    }

    /** A machine with this disk image in its drive, nothing mounted yet. */
    constructor (image: seq<Sector>, ata: bool)
      requires |image| == DISK_SECTORS
      ensures Shape() && !present && disk[..] == image && diskPresent == ata && fresh(disk) && fresh(dir)
    {
      var d := new Sector[DISK_SECTORS](i requires 0 <= i < DISK_SECTORS => image[i]);
      disk := d;
      diskPresent := ata;
      dir := new u8[MAX_FILES * ENT](_ => 0);
      present := false;
      nextFree := 0;
    }

    method CopyInto(at: nat, b: seq<u8>)
      requires Shape() && at + |b| <= dir.Length
      modifies dir
      ensures dir[..] == Splice(old(dir[..]), at, b)
    {
      CopyOut(dir, at, b);
    }

    /** Write the cached directory sector holding entry i through. */
    method FlushEnt(i: nat)
      requires Shape() && i < MAX_FILES
      modifies disk
      ensures disk[..] == old(disk[..])[DIR_LBA + i / 16 := dir[..][512 * (i / 16)..512 * (i / 16) + 512]]
    {
      var sec := i * ENT / 512;
      assert sec == i / 16;
      disk[DIR_LBA + sec] := dir[sec * 512..sec * 512 + 512];
      assert dir[..][512 * sec..512 * sec + 512] == dir[sec * 512..sec * 512 + 512];
    }

    method FlushSb()
      requires Shape() && 0 <= nextFree < 0x1_0000_0000
      modifies disk
      ensures disk[..] == old(disk[..])[SB_LBA := disk[SB_LBA]]
      ensures disk[SB_LBA][..8] == Magic() && LeWord(disk[SB_LBA][8..12]) == nextFree
    {
      var sb := Splice(Splice(Zeros(512), 0, Magic()), 8, LeBytes(nextFree, 4));
      disk[SB_LBA] := sb;
      assert sb[..8] == Magic() && sb[8..12] == LeBytes(nextFree, 4);
      LeRoundTrip(nextFree, 4);
      Pow256Four();
    }

    method Find(name: seq<u8>) returns (r: Option<nat>)
      requires present ==> Valid()
      requires Shape()
      ensures !present || |name| == 0 || |name| > NAME_MAX ==> r.None?
      ensures present && 0 < |name| <= NAME_MAX ==> r == Lookup(Volume().files, Stem(name))
    {
      if !present || |name| == 0 || |name| > NAME_MAX {
        return None;
      }
      var i := 0;
      while i < MAX_FILES
        invariant 0 <= i <= MAX_FILES
        invariant forall j | 0 <= j < i :: !Matches(Entry(dir[..], j), name)
      {
        var e := dir[i * ENT..i * ENT + ENT];
        assert e == Entry(dir[..], i);
        if Matches(e, name) {
          FoundIs(dir[..], Count(), name, i);
          return Some(i);
        }
        i := i + 1;
      }
      NoneFound(dir[..], Count(), name);
      return None;
    }

    /** The first slot whose name starts with a NUL. */
    method FreeSlot() returns (i: nat)
      requires Valid()
      ensures i == Count() && i <= MAX_FILES && nextFree == DATA_LBA + 8 * i
    {
      i := 0;
      SlotLive(dir[..], Count(), i);
      while i < MAX_FILES && dir[i * ENT] != 0
        invariant 0 <= i <= Count()
        invariant i < MAX_FILES ==> (dir[i * ENT] != 0 <==> i < Count())
      {
        i := i + 1;
        SlotLive(dir[..], Count(), i);
      }
    }

    method FillSlot(i: nat, name: seq<u8>, first: nat)
      requires Shape() && i < MAX_FILES && |name| <= NAME_MAX
      modifies dir
      ensures dir[..] == SetEntry(old(dir[..]), i, NewEntry(name, first))
    {
      ghost var dir0 := dir[..];
      CopyInto(32 * i, Zeros(ENT));
      CopyInto(32 * i, name);
      CopyInto(32 * i + 24, LeBytes(first, 4));
      FillEntry(dir0, i, name, first);
    }

    /** A free directory slot, a fresh extent: the file asked for, if its name is new and NUL-free. */
    method Create(name: seq<u8>) returns (r: Option<nat>)
      requires Shape() && (present ==> Valid())
      modifies this`nextFree, disk, dir
      ensures Shape()
      ensures r.None? <==> !present || |name| == 0 || |name| > NAME_MAX || |old(Volume()).files| == MAX_FILES
      ensures r.None? ==> disk[..] == old(disk[..]) && dir[..] == old(dir[..]) && nextFree == old(nextFree)
      ensures r.Some? ==> r.value == |old(Volume()).files|
      ensures r.Some? ==>
        ((Valid() && Volume() == Created(old(Volume()), name)) <==>
         (0 !in name && Lookup(old(Volume()).files, name).None?))
      ensures r.Some? ==> (Valid() <==> Wholesome(name) && Lookup(old(Volume()).files, Stem(name)).None?)
      ensures r.Some? && Valid() ==> Volume() == Created(old(Volume()), Stem(name))
    {
      hide FsOk, VolOf, NewEntry, SetEntry, VolOk, Lookup, Wholesome;
      if !present || |name| == 0 || |name| > NAME_MAX {
        return None;
      }
      var i := FreeSlot();
      if i == MAX_FILES {
        return None;
      }
      ghost var disk0, dir0 := disk[..], dir[..];
      var first := nextFree;
      nextFree := first + FILE_SECTORS;
      FillSlot(i, name, first);
      FlushEnt(i);
      ghost var disk1 := disk[..];
      FlushSb();
      assert Count() == i + 1;
      CreateEffect(disk0, dir0, i, name, disk1, disk[..]);
      return Some(i);
    }

    /** Length zero; the extent keeps its bytes. */
    method Truncate(i: nat)
      requires Valid() && i < |Volume().files|
      modifies disk, dir
      ensures Valid() && Volume() == Truncated(old(Volume()), i)
    {
      SetLen(i, 0);
    }

    /** Store a new length in entry i and write its sector through. */
    method SetLen(i: nat, len: nat)
      requires Valid() && i < |Volume().files| && len <= FILE_CAP
      modifies disk, dir
      ensures Valid() && nextFree == old(nextFree)
      ensures Volume() == old(Volume()).(files := old(Volume()).files[i := old(Volume()).files[i].(len := len)])
    {
      ghost var disk0, dir0, v0 := disk[..], dir[..], Volume();
      CopyInto(i * ENT + 28, LeBytes(len, 4));
      FlushEnt(i);
      LenEffect(disk0, dir0, nextFree, |v0.files|, i, len, disk[..], dir[..]);
    }

    /** The byte at pos, or None at or past the end of the file. */
    method ReadAt(i: nat, pos: nat) returns (r: Option<u8>)
      requires Valid() && i < |Volume().files|
      ensures r == ByteAt(Volume(), i, pos)
    {
      var e := dir[i * ENT..i * ENT + ENT];
      assert e == Entry(dir[..], i);
      assert LiveAt(dir[..], i);
      if pos >= EntLen(e) {
        return None;
      }
      var sec := disk[EntSector(e) + pos / 512];
      ExtentByte(disk[..], DATA_LBA + 8 * i, 8, pos);
      return Some(sec[pos % 512]);
    }

    /** Read-modify-write of one byte; false past the extent. */
    method WriteAt(i: nat, pos: nat, b: u8) returns (ok: bool)
      requires Valid() && i < |Volume().files|
      modifies disk, dir
      ensures Valid() && ok == (pos < FILE_CAP) && nextFree == old(nextFree)
      ensures Volume() == if ok then Written(old(Volume()), i, pos, b) else old(Volume())
    {
      hide FsOk, VolOf, EntSector, EntLen, Entry, VolOk;
      if pos >= FILE_CAP {
        return false;
      }
      ghost var disk0 := disk[..];
      var e := dir[i * ENT..i * ENT + ENT];
      EntryFacts(disk[..], dir[..], nextFree, Count(), i);
      var lba := EntSector(e) + pos / 512;
      var sec := PutByte(disk[lba], pos % 512, b);
      disk[lba] := sec;
      assert disk[..] == disk0[lba := sec];
      ByteEffect(disk0, dir[..], nextFree, Count(), i, pos, b);
      if pos + 1 > EntLen(e) {
        SetLen(i, pos + 1);
      }
      return true;
    }

    /** As much of file i as fits in buf, sector by sector; the rest of buf is untouched. */
    method ReadFile(i: nat, buf: array<u8>) returns (done: nat)
      requires Valid() && i < |Volume().files| && buf != dir && (buf as object) != disk
      modifies buf
      ensures done == if |Contents(Volume(), i)| <= buf.Length then |Contents(Volume(), i)| else buf.Length
      ensures buf[..] == Contents(Volume(), i)[..done] + old(buf[..])[done..]
    {
      hide FsOk, VolOf, EntSector, EntLen, Entry, Splice;
      ghost var v, buf0 := Volume(), buf[..];
      ghost var content := Contents(v, i);
      var e := dir[32 * i..32 * i + 32];
      EntryFacts(disk[..], dir[..], nextFree, Count(), i);
      var first := EntSector(e);
      var len := if EntLen(e) <= buf.Length then EntLen(e) else buf.Length;
      done := 0;
      while done < len
        invariant done <= len && (done % 512 == 0 || done == len)
        invariant buf[..] == content[..done] + buf0[done..]
      {
        SectorOfFile(disk[..], dir[..], nextFree, Count(), i, done);
        var sec := disk[first + done / 512];
        var n := if len - done <= 512 then len - done else 512;
        CopyOut(buf, done, sec[..n]);
        GrowPrefix(v.data[i], content, buf0, done, n, sec);
        done := done + n;
      }
    }

    static method CopyOut(buf: array<u8>, at: nat, b: seq<u8>)
      requires at + |b| <= buf.Length
      modifies buf
      ensures buf[..] == Splice(old(buf[..]), at, b)
    {
      forall k | 0 <= k < |b| {
        buf[at + k] := b[k];
      }
    }

    /** Create a file and write its content byte by byte, as much as fits in the extent. */
    method Seed(name: seq<u8>, content: seq<u8>)
      requires Valid() && |Volume().files| < MAX_FILES
      requires 0 < |name| <= NAME_MAX && 0 !in name && Lookup(Volume().files, name).None?
      modifies this`nextFree, disk, dir
      ensures Valid() && Volume().files == old(Volume()).files + [File(name, Fit(|content|))]
      ensures var i := |old(Volume()).files|;
        Contents(Volume(), i) == content[..Fit(|content|)]
        && forall j | 0 <= j < MAX_FILES && j != i :: Volume().data[j] == old(Volume()).data[j]
    {
      hide FsOk, VolOf;
      ghost var v0 := Volume();
      StemPlain(name);
      var r := Create(name);
      if r.Some? {
        var i := r.value;
        var p := 0;
        while p < |content|
          invariant 0 <= p <= |content| && Valid()
          invariant Volume().files == v0.files + [File(name, Fit(p))]
          invariant Contents(Volume(), i) == content[..Fit(p)]
          invariant forall j | 0 <= j < MAX_FILES && j != i :: Volume().data[j] == v0.data[j]
        {
          ghost var v := Volume();
          var ok := WriteAt(i, p, content[p]);
          WrittenPrefix(v, i, content, p);
          p := p + 1;
        }
      }
    }

    /** Load the directory if the disk carries the magic, else format it and seed two files; count
        the live files. */
    method Init(seedProg: seq<u8>) returns (n: nat)
      requires Shape()
      modifies this, disk, dir
      ensures Shape()
      ensures !diskPresent ==> n == 0 && present == old(present) && disk[..] == old(disk[..])
      ensures diskPresent ==> present
      ensures forall k: nat | diskPresent && DiskOk(old(disk[..]), k) ::
        Valid() && disk[..] == old(disk[..]) && Volume() == DiskVol(old(disk[..]), k) && n == k
      ensures diskPresent && old(disk[SB_LBA])[..8] != Magic() ==>
        && Valid() && n == 2
        && Volume().files == [File(HelloName(), 18), File([120], Fit(|seedProg|))]
        && Contents(Volume(), 0) == HelloText() && Contents(Volume(), 1) == seedProg[..Fit(|seedProg|)]
    {
      if !diskPresent {
        return 0;
      }
      var sb := disk[SB_LBA];
      present := true;
      if sb[..8] != Magic() {
        FormatAndSeed(seedProg);
      } else {
        Load(sb);
      }
      n := LiveFiles();
    }

    method FormatAndSeed(seedProg: seq<u8>)
      requires Shape() && present
      modifies this`nextFree, disk, dir
      ensures Valid() && Volume().files == [File(HelloName(), 18), File([120], Fit(|seedProg|))]
      ensures Contents(Volume(), 0) == HelloText() && Contents(Volume(), 1) == seedProg[..Fit(|seedProg|)]
    {
      hide FsOk, VolOf;
      Format();
      Seed(HelloName(), HelloText());
      ghost var v := Volume();
      assert Contents(v, 0) == HelloText();
      Seed([120], seedProg);
      assert Volume().data[0] == v.data[0];
    }

    method Format()
      requires Shape() && present
      modifies this`nextFree, disk, dir
      ensures Valid() && Volume().files == []
    {
      forall p | 0 <= p < MAX_FILES * ENT {
        dir[p] := 0;
      }
      nextFree := DATA_LBA;
      FlushSb();
      var s := 0;
      while s < 2
        invariant 0 <= s <= 2
        invariant disk[SB_LBA][..8] == Magic() && LeWord(disk[SB_LBA][8..12]) == nextFree == DATA_LBA
        invariant forall t | DIR_LBA <= t < DIR_LBA + s :: disk[t] == Zeros(512)
        invariant forall p | 0 <= p < MAX_FILES * ENT :: dir[p] == 0
      {
        disk[DIR_LBA + s] := Zeros(512);
        s := s + 1;
      }
      FormatOk(disk[..], dir[..]);
    }

    method Load(sb: Sector)
      requires Shape() && present && sb == disk[SB_LBA]
      modifies this`nextFree, dir
      ensures Shape() && dir[..] == Extent(disk[..], DIR_LBA, 2) && nextFree == LeWord(disk[SB_LBA][8..12])
    {
      ghost var d := dir[..];
      nextFree := LeWord(sb[8..12]);
      CopyInto(0, disk[DIR_LBA]);
      CopyInto(512, disk[DIR_LBA + 1]);
      TwoSectors(disk[..], d);
    }

    /** `each_file` with a counting callback. */
    method LiveFiles() returns (n: nat)
      requires Shape()
      ensures forall k: nat | present && DirOk(dir[..], k) :: n == k
    {
      n := 0;
      if !present {
        return;
      }
      var i := 0;
      while i < MAX_FILES
        invariant 0 <= i <= MAX_FILES
        invariant forall k: nat | DirOk(dir[..], k) :: n == if i <= k then i else k
      {
        forall k: nat | DirOk(dir[..], k) ensures dir[32 * i] != 0 <==> i < k {
          SlotTaken(dir[..], k, i);
        }
        if dir[32 * i] != 0 {
          n := n + 1;
        }
        i := i + 1;
      }
    }
  }

  lemma FoundIs(dir: seq<u8>, n: nat, name: seq<u8>, i: nat)
    requires DirOk(dir, n) && 0 < |name| <= NAME_MAX && i < MAX_FILES && Matches(Entry(dir, i), name)
    ensures Lookup(FilesOf(dir, n), Stem(name)) == Some(i)
  {
    hide Entry;
    assert i < n;
    assert LiveAt(dir, i);
    MatchIsName(Entry(dir, i), name);
    var files := FilesOf(dir, n);
    forall j | 0 <= j < n && j != i ensures files[j].name != Stem(name) {
      assert EntName(Entry(dir, if i < j then i else j)) != EntName(Entry(dir, if i < j then j else i));
    }
    LookupOnly(files, Stem(name), i);
  }

  /** The only file of a name is the one found. */
  lemma LookupOnly(files: seq<File>, name: seq<u8>, i: nat)
    requires i < |files| && files[i].name == name && forall j | 0 <= j < |files| && j != i :: files[j].name != name
    ensures Lookup(files, name) == Some(i)
  {
    var r := Lookup(files, name);
    assert r.Some? ==> r.value == i;
  }

  lemma NoneFound(dir: seq<u8>, n: nat, name: seq<u8>)
    requires DirOk(dir, n) && 0 < |name| <= NAME_MAX
    requires forall i | 0 <= i < MAX_FILES :: !Matches(Entry(dir, i), name)
    ensures Lookup(FilesOf(dir, n), Stem(name)) == None
  {
    hide Entry;
    var r := Lookup(FilesOf(dir, n), Stem(name));
    if r.Some? {
      assert LiveAt(dir, r.value);
      MatchIsName(Entry(dir, r.value), name);
    }
  }

  /** Slots below the count are taken, slots from it on are free. */
  lemma SlotLive(dir: seq<u8>, n: nat, i: nat)
    requires DirOk(dir, n) && i <= n
    ensures i < MAX_FILES ==> (dir[i * ENT] != 0 <==> i < n)
  {
    if i < n {
      assert LiveAt(dir, i);
    } else if i < MAX_FILES {
      assert Entry(dir, i)[0] == 0;
    }
  }

  lemma SlotTaken(dir: seq<u8>, n: nat, i: nat)
    requires DirOk(dir, n) && i < MAX_FILES
    ensures dir[32 * i] != 0 <==> i < n
  {
    assert Entry(dir, i)[0] == dir[32 * i];
    if i < n {
      assert LiveAt(dir, i);
    }
  }

  /** One more byte written at the end of what is there. */
  lemma WrittenPrefix(v: Vol, i: nat, content: seq<u8>, p: nat)
    requires VolOk(v) && i < |v.files| && p < |content|
    requires v.files[i].len == Fit(p) && Contents(v, i) == content[..Fit(p)]
    ensures p < FILE_CAP ==>
      var w := Written(v, i, p, content[p]);
      w.files[i].len == Fit(p + 1) && w.data[i][..Fit(p + 1)] == content[..Fit(p + 1)]
  {
    if p < FILE_CAP {
      var w := Written(v, i, p, content[p]);
      assert w.data[i][..p + 1] == v.data[i][..p] + [content[p]];
      assert content[..p + 1] == content[..p] + [content[p]];
    }
  }

  lemma TwoSectors(disk: seq<Sector>, d: seq<u8>)
    requires |disk| == DISK_SECTORS && |d| == 1024
    ensures Splice(Splice(d, 0, disk[DIR_LBA]), 512, disk[DIR_LBA + 1]) == Extent(disk, DIR_LBA, 2)
  {
    assert Extent(disk, DIR_LBA, 0) == [];
    assert Extent(disk, DIR_LBA, 1) == disk[DIR_LBA];
    var x := Splice(d, 0, disk[DIR_LBA]);
    assert x[..512] == disk[DIR_LBA];
  }

  lemma FormatOk(disk: seq<Sector>, dir: seq<u8>)
    requires |disk| == DISK_SECTORS && |dir| == MAX_FILES * ENT && forall p | 0 <= p < |dir| :: dir[p] == 0
    requires disk[SB_LBA][..8] == Magic() && LeWord(disk[SB_LBA][8..12]) == DATA_LBA
    requires disk[DIR_LBA] == Zeros(512) && disk[DIR_LBA + 1] == Zeros(512)
    ensures FsOk(disk, dir, DATA_LBA, 0)
  {
    forall p | 0 <= p < 1024 ensures Extent(disk, DIR_LBA, 2)[p] == dir[p] {
      ExtentByte(disk, DIR_LBA, 2, p);
    }
    assert Extent(disk, DIR_LBA, 2) == dir;
  }

  /** Between operations the disk alone holds the whole volume: mounting it again finds the magic,
      loads the same directory and bump pointer, and so the same files. */
  lemma LeftClean(disk: seq<Sector>, dir: seq<u8>, nextFree: nat, n: nat)
    requires FsOk(disk, dir, nextFree, n)
    ensures DiskOk(disk, n) && DiskVol(disk, n) == VolOf(disk, dir, n) && disk[SB_LBA][..8] == Magic()
  {}

  lemma LookupNone(files: seq<File>, name: seq<u8>)
    ensures Lookup(files, name).None? <==> forall i | 0 <= i < |files| :: files[i].name != name
  {}

  /** Clearing an entry, then copying the name and the first sector in. */
  lemma FillEntry(dir: seq<u8>, i: nat, name: seq<u8>, first: nat)
    requires |dir| == MAX_FILES * ENT && i < MAX_FILES && |name| <= NAME_MAX
    ensures Splice(Splice(Splice(dir, 32 * i, Zeros(32)), 32 * i, name), 32 * i + 24, LeBytes(first, 4))
         == SetEntry(dir, i, NewEntry(name, first))
  {
    var x := Splice(Splice(Splice(dir, 32 * i, Zeros(32)), 32 * i, name), 32 * i + 24, LeBytes(first, 4));
    var y := SetEntry(dir, i, NewEntry(name, first));
    forall p | 0 <= p < |dir| ensures x[p] == y[p] {}
  }

  /** After the directory sector and the superblock are written, the disk holds the new directory
      and the new bump pointer, and the extents are as before. */
  lemma CreateSyncs(disk: seq<Sector>, dir: seq<u8>, n: nat, e: seq<u8>, disk1: seq<Sector>, disk2: seq<Sector>)
    requires FsOk(disk, dir, DATA_LBA + 8 * n, n) && n < MAX_FILES && |e| == ENT
    requires disk1 == disk[DIR_LBA + n / 16 := SetEntry(dir, n, e)[512 * (n / 16)..512 * (n / 16) + 512]]
    requires |disk2| == |disk| && disk2 == disk1[SB_LBA := disk2[SB_LBA]]
    requires disk2[SB_LBA][..8] == Magic() && LeWord(disk2[SB_LBA][8..12]) == DATA_LBA + 8 * (n + 1)
    ensures Synced(disk2, SetEntry(dir, n, e), DATA_LBA + 8 * (n + 1))
    ensures ExtentsOf(disk2, MAX_FILES) == ExtentsOf(disk, MAX_FILES)
  {
    FlushSyncs(disk, dir, DATA_LBA + 8 * n, n, e);
    ExtentFrame(disk1, disk2, DIR_LBA, 2);
    ExtentsFrame(disk, disk2, MAX_FILES);
  }

  /** A prefix of the content, then one more piece of it. */
  lemma GrowPrefix(data: seq<u8>, content: seq<u8>, buf: seq<u8>, at: nat, n: nat, sec: Sector)
    requires at + n <= |content| <= |data| && content == data[..|content|] && at + n <= |buf| && n <= 512
    requires at + 512 <= |data| && sec == data[at..at + 512]
    ensures Splice(content[..at] + buf[at..], at, sec[..n]) == content[..at + n] + buf[at + n..]
  {
    assert sec[..n] == data[at..at + n] == content[at..at + n];
    assert content[..at + n] == content[..at] + content[at..at + n];
    assert (content[..at] + buf[at..])[at + n..] == buf[at + n..];
  }

  /** The sector at a sector boundary of a file holds its next 512 bytes. */
  lemma SectorOfFile(disk: seq<Sector>, dir: seq<u8>, nextFree: nat, n: nat, i: nat, at: nat)
    requires FsOk(disk, dir, nextFree, n) && i < n && at % 512 == 0 && at < FILE_CAP
    ensures |disk| == DISK_SECTORS && |VolOf(disk, dir, n).data[i]| == FILE_CAP
    ensures disk[DATA_LBA + 8 * i + at / 512] == VolOf(disk, dir, n).data[i][at..at + 512]
  {
    var d := VolOf(disk, dir, n).data[i];
    var sec := disk[DATA_LBA + 8 * i + at / 512];
    forall k | 0 <= k < 512
      ensures sec[k] == d[at..at + 512][k]
    {
      ExtentByte(disk, DATA_LBA + 8 * i, 8, at + k);
    }
    assert sec == d[at..at + 512];
  }

  /** `create` as a whole. */
  lemma CreateEffect(disk: seq<Sector>, dir: seq<u8>, n: nat, name: seq<u8>, disk1: seq<Sector>, disk2: seq<Sector>)
    requires FsOk(disk, dir, DATA_LBA + 8 * n, n) && n < MAX_FILES && 0 < |name| <= NAME_MAX
    requires var dir2 := SetEntry(dir, n, NewEntry(name, DATA_LBA + 8 * n));
      && disk1 == disk[DIR_LBA + n / 16 := dir2[512 * (n / 16)..512 * (n / 16) + 512]]
      && |disk2| == |disk| && disk2 == disk1[SB_LBA := disk2[SB_LBA]]
      && disk2[SB_LBA][..8] == Magic() && LeWord(disk2[SB_LBA][8..12]) == DATA_LBA + 8 * (n + 1)
    ensures var dir2, v := SetEntry(dir, n, NewEntry(name, DATA_LBA + 8 * n)), VolOf(disk, dir, n);
      (FsOk(disk2, dir2, DATA_LBA + 8 * (n + 1), n + 1) && VolOf(disk2, dir2, n + 1) == Created(v, name))
      <==> (0 !in name && Lookup(v.files, name).None?)
    ensures var dir2, v := SetEntry(dir, n, NewEntry(name, DATA_LBA + 8 * n)), VolOf(disk, dir, n);
      && (FsOk(disk2, dir2, DATA_LBA + 8 * (n + 1), n + 1) <==> Wholesome(name) && Lookup(v.files, Stem(name)).None?)
      && (FsOk(disk2, dir2, DATA_LBA + 8 * (n + 1), n + 1) ==> VolOf(disk2, dir2, n + 1) == Created(v, Stem(name)))
  {
    hide SetEntry, NewEntry, Lookup, Synced, Wholesome;
    CreateSound(dir, n, name);
    LookupNone(FilesOf(dir, n), Stem(name));
    CreateSyncs(disk, dir, n, NewEntry(name, DATA_LBA + 8 * n), disk1, disk2);
    CreateExact(dir, n, name);
    LookupNone(FilesOf(dir, n), name);
  }

  lemma EntryFacts(disk: seq<Sector>, dir: seq<u8>, nextFree: nat, n: nat, i: nat)
    requires FsOk(disk, dir, nextFree, n) && i < n
    ensures var e := dir[32 * i..32 * i + 32];
      && EntSector(e) == DATA_LBA + 8 * i && EntLen(e) == VolOf(disk, dir, n).files[i].len <= FILE_CAP
    ensures |VolOf(disk, dir, n).files| == n && |VolOf(disk, dir, n).data| == MAX_FILES
    ensures |VolOf(disk, dir, n).data[i]| == FILE_CAP
  {
    assert LiveAt(dir, i);
    assert Entry(dir, i) == dir[32 * i..32 * i + 32];
  }

  /** One byte of one extent, and nothing of the directory. */
  lemma ByteEffect(disk: seq<Sector>, dir: seq<u8>, nextFree: nat, n: nat, i: nat, pos: nat, b: u8)
    requires FsOk(disk, dir, nextFree, n) && i < n && pos < FILE_CAP
    ensures var s := DATA_LBA + 8 * i + pos / 512;
      var disk', v := disk[s := PutByte(disk[s], pos % 512, b)], VolOf(disk, dir, n);
      FsOk(disk', dir, nextFree, n) && VolOf(disk', dir, n) == v.(data := v.data[i := PutByte(v.data[i], pos, b)])
  {
    var s := DATA_LBA + 8 * i + pos / 512;
    SyncFrame(disk, disk[s := PutByte(disk[s], pos % 512, b)], dir, nextFree);
    ExtentsWrite(disk, i, pos, b);
  }

  lemma LenDir(dir: seq<u8>, n: nat, i: nat, len: nat)
    requires DirOk(dir, n) && i < n && len <= FILE_CAP
    ensures var dir' := SetEntry(dir, i, Splice(Entry(dir, i), 28, LeBytes(len, 4)));
      DirOk(dir', n) && FilesOf(dir', n) == FilesOf(dir, n)[i := FilesOf(dir, n)[i].(len := len)]
  {
    hide LeBytes, SetEntry, EntName, EntSector, EntLen, Entry, Padded;
    assert LiveAt(dir, i);
    LenSet(Entry(dir, i), len);
    SetEntryDirOk(dir, n, i, Splice(Entry(dir, i), 28, LeBytes(len, 4)));
  }

  /** Storing a length and writing the sector through. */
  lemma LenEffect(disk: seq<Sector>, dir: seq<u8>, nextFree: nat, n: nat, i: nat, len: nat,
                  disk': seq<Sector>, dir': seq<u8>)
    requires FsOk(disk, dir, nextFree, n) && i < n && len <= FILE_CAP
    requires 32 * i + 32 <= |dir| && dir' == Splice(dir, 32 * i + 28, LeBytes(len, 4))
    requires disk' == disk[DIR_LBA + i / 16 := dir'[512 * (i / 16)..512 * (i / 16) + 512]]
    ensures FsOk(disk', dir', nextFree, n)
    ensures VolOf(disk', dir', n) == VolOf(disk, dir, n).(files := FilesOf(dir, n)[i := FilesOf(dir, n)[i].(len := len)])
  {
    hide LeBytes, LeWord, SetEntry, EntName, EntSector, EntLen, Entry, Extent, LiveAt, Splice;
    SpliceEntry(dir, i, 28, LeBytes(len, 4));
    var e := Splice(Entry(dir, i), 28, LeBytes(len, 4));
    LenDir(dir, n, i, len);
    FlushSyncs(disk, dir, nextFree, i, e);
    ExtentsFrame(disk, disk', MAX_FILES);
  }
}
