// The on-disk layout of Mik-FS: a superblock, a 1 KiB directory of 32-byte
// entries and one 4 KiB extent a file; and the volume of named files it stands
// for.

module MikFsLayout {
  import opened Bytes

  const SB_LBA := 256
  const DIR_LBA := 257
  const DATA_LBA := 260
  const FILE_SECTORS := 8
  const FILE_CAP := 4096
  const MAX_FILES := 32
  const ENT := 32
  const NAME_MAX := 24
  const DISK_SECTORS := 2048

  type Sector = s: seq<u8> | |s| == 512 witness seq(512, _ => 0)

  function Magic(): (m: seq<u8>)
    ensures |m| == 8
  {
    [77, 73, 75, 70, 83, 48, 48, 49]
  }

  function Zeros(n: nat): (z: seq<u8>)
    ensures |z| == n
  {
    seq(n, _ => 0)
  }

  /** s with the bytes b at position `at`. */
  function Splice(s: seq<u8>, at: nat, b: seq<u8>): (r: seq<u8>)
    requires at + |b| <= |s|
    ensures |r| == |s|
  {
    s[..at] + b + s[at + |b|..]
  }

  function PutByte(s: seq<u8>, pos: nat, b: u8): (r: seq<u8>)
    requires pos < |s|
    ensures |r| == |s|
  {
    s[pos := b]
  }

  // ---- Directory entries ----------------------------------------------------------

  /** The bytes before the first NUL. */
  function Name(field: seq<u8>): seq<u8> {
    if field == [] || field[0] == 0 then [] else [field[0]] + Name(field[1..])
  }

  function Entry(dir: seq<u8>, i: nat): (e: seq<u8>)
    requires |dir| == MAX_FILES * ENT && i < MAX_FILES
    ensures |e| == ENT
  {
    dir[32 * i..32 * i + 32]
  }

  function SetEntry(dir: seq<u8>, i: nat, e: seq<u8>): (r: seq<u8>)
    requires |dir| == MAX_FILES * ENT && i < MAX_FILES && |e| == ENT
    ensures |r| == |dir|
  {
    Splice(dir, 32 * i, e)
  }

  function EntName(e: seq<u8>): seq<u8>
    requires |e| == ENT
  {
    Name(e[..24])
  }

  function EntSector(e: seq<u8>): nat
    requires |e| == ENT
  {
    LeWord(e[24..28])
  }

  function EntLen(e: seq<u8>): nat
    requires |e| == ENT
  {
    LeWord(e[28..32])
  }

  /** The field holds those bytes and then NULs. */
  predicate Fills(f: seq<u8>, name: seq<u8>) { |name| <= |f| && f == name + Zeros(|f| - |name|) }

  /** The name field holds the name and then NULs only. */
  predicate Padded(e: seq<u8>)
    requires |e| == ENT
  {
    Fills(e[..24], EntName(e))
  }

  /** The name without the NULs it ends in. */
  function Stem(name: seq<u8>): (r: seq<u8>)
    ensures |r| <= |name|
  {
    if name == [] || name[|name| - 1] != 0 then name else Stem(name[..|name| - 1])
  }

  /** A name the directory can hold: not empty and with no NUL but at its end. */
  predicate Wholesome(name: seq<u8>) { Stem(name) != [] && 0 !in Stem(name) }

  /** The comparison `find` makes. */
  predicate Matches(e: seq<u8>, name: seq<u8>)
    requires |e| == ENT && |name| <= NAME_MAX
  {
    e[0] != 0 && e[..|name|] == name && (|name| == NAME_MAX || e[|name|] == 0)
  }

  /** The entry `create` writes. */
  function NewEntry(name: seq<u8>, first: nat): (e: seq<u8>)
    requires |name| <= NAME_MAX
    ensures |e| == ENT
  {
    name + Zeros(24 - |name|) + LeBytes(first, 4) + Zeros(4)
  }

  lemma SetEntryAt(dir: seq<u8>, i: nat, e: seq<u8>, j: nat)
    requires |dir| == MAX_FILES * ENT && i < MAX_FILES && j < MAX_FILES && |e| == ENT
    ensures Entry(SetEntry(dir, i, e), j) == if j == i then e else Entry(dir, j)
  {
    var r := SetEntry(dir, i, e);
    if j == i {
      assert r[32 * i..32 * i + 32] == e;
    } else {
      assert r[32 * j..32 * j + 32] == dir[32 * j..32 * j + 32];
    }
  }

  lemma SpliceAt(s: seq<u8>, at: nat, b: seq<u8>, p: nat)
    requires at + |b| <= |s| && p < |s|
    ensures Splice(s, at, b)[p] == if at <= p < at + |b| then b[p - at] else s[p]
  {}

  /** A splice inside an entry is a new value of that entry. */
  lemma SpliceEntry(dir: seq<u8>, i: nat, k: nat, b: seq<u8>)
    requires |dir| == MAX_FILES * ENT && i < MAX_FILES && k + |b| <= ENT
    ensures 32 * i + k + |b| <= |dir| && Splice(dir, 32 * i + k, b) == SetEntry(dir, i, Splice(Entry(dir, i), k, b))
  {
    assert 32 * i + 32 <= 1024;
    var x, y := Splice(dir, 32 * i + k, b), SetEntry(dir, i, Splice(Entry(dir, i), k, b));
    forall p | 0 <= p < |dir| ensures x[p] == y[p] {
      SpliceAt(dir, 32 * i + k, b, p);
      SpliceAt(dir, 32 * i, Splice(Entry(dir, i), k, b), p);
      if 32 * i <= p < 32 * i + 32 {
        SpliceAt(Entry(dir, i), k, b, p - 32 * i);
      }
    }
  }

  /** Setting the length field. */
  lemma LenSet(e: seq<u8>, n: nat)
    requires |e| == ENT && n < 0x1_0000_0000
    ensures var r := Splice(e, 28, LeBytes(n, 4));
      && EntLen(r) == n && EntName(r) == EntName(e) && EntSector(r) == EntSector(e) && r[0] == e[0]
      && (Padded(r) <==> Padded(e))
  {
    var r := Splice(e, 28, LeBytes(n, 4));
    LeRoundTrip(n, 4);
    Pow256Four();
    assert r[28..32] == LeBytes(n, 4) && r[..24] == e[..24] && r[24..28] == e[24..28];
  }

  lemma Pow256Four()
    ensures Pow256(4) == 0x1_0000_0000
  {
    assert Pow256(2) == 0x1_0000;
  }

  // ---- Names ------------------------------------------------------------------------

  /** A name without NUL is what the field holds exactly when the field starts with it and stops
      there. */
  lemma {:induction false} NameIs(field: seq<u8>, name: seq<u8>)
    requires |name| <= |field| && 0 !in name
    ensures Name(field) == name <==> field[..|name|] == name && (|name| == |field| || field[|name|] == 0)
    decreases |name|
  {
    if name != [] {
      assert forall k | 0 <= k < |name| - 1 :: name[1..][k] == name[k + 1];
      NameIs(field[1..], name[1..]);
      if field[0] == name[0] {
        assert Name(field) == [name[0]] + Name(field[1..]);
        assert name == [name[0]] + name[1..];
        assert field[..|name|] == [name[0]] + field[1..][..|name| - 1];
        if Name(field) == name {
          assert Name(field[1..]) == Name(field)[1..];
        }
      } else {
        assert field[..|name|][0] == field[0];
      }
    }
  }

  lemma {:induction false} NameHasNoNul(field: seq<u8>)
    ensures 0 !in Name(field) && |Name(field)| <= |field|
    ensures field != [] && field[0] != 0 ==> Name(field) != []
  {
    if field != [] && field[0] != 0 {
      NameHasNoNul(field[1..]);
    }
  }

  lemma FillsAt(f: seq<u8>, n: seq<u8>, k: nat)
    requires Fills(f, n) && k < |f|
    ensures |n| <= |f| && f[k] == if k < |n| then n[k] else 0
  {}

  lemma FillsBy(f: seq<u8>, n: seq<u8>)
    requires |n| <= |f| && forall k | 0 <= k < |f| :: f[k] == if k < |n| then n[k] else 0
    ensures Fills(f, n)
  {}

  lemma {:induction false} StemShape(name: seq<u8>)
    ensures Fills(name, Stem(name))
    ensures Stem(name) != [] ==> Stem(name)[|Stem(name)| - 1] != 0
  {
    if name != [] && name[|name| - 1] == 0 {
      StemShape(name[..|name| - 1]);
      assert name == name[..|name| - 1] + [0];
    }
  }

  lemma {:induction false} StemOf(base: seq<u8>, k: nat)
    requires base == [] || base[|base| - 1] != 0
    ensures Stem(base + Zeros(k)) == base
    decreases k
  {
    if k == 0 {
      assert base + Zeros(0) == base;
    } else {
      StemOf(base, k - 1);
      assert (base + Zeros(k))[..|base| + k - 1] == base + Zeros(k - 1);
    }
  }

  /** A name without NUL is its own stem. */
  lemma StemPlain(name: seq<u8>)
    requires 0 !in name
    ensures Stem(name) == name
  {
    if name != [] {
      assert name[|name| - 1] in name;
    }
  }

  /** A prefix of a padded name that stops at the padding is the name with some of it. */
  lemma PrefixStem(f: seq<u8>, n: seq<u8>, name: seq<u8>)
    requires n != [] && 0 !in n && Fills(f, n) && |name| <= |f|
    requires f[..|name|] == name && (|name| == |f| || f[|name|] == 0)
    ensures Stem(name) == n
  {
    var q := |name|;
    assert forall j | 0 <= j < |n| :: f[j] == n[j] != 0;
    assert n[|n| - 1] in n;
    assert name == n + Zeros(q - |n|);
    StemOf(n, q - |n|);
  }

  /** And the other way round. */
  lemma StemPrefix(f: seq<u8>, name: seq<u8>)
    requires Fills(f, Stem(name)) && |name| <= |f|
    ensures f[..|name|] == name && (|name| == |f| || f[|name|] == 0)
  {
    StemShape(name);
    hide Stem, Fills;
    forall k | 0 <= k < |name| ensures f[k] == name[k] {
      FillsAt(f, Stem(name), k);
      FillsAt(name, Stem(name), k);
    }
    if |name| < |f| {
      FillsAt(f, Stem(name), |name|);
    }
  }

  /** `find` compares names up to trailing NULs, and finds nothing for a name with any other NUL. */
  lemma MatchIsName(e: seq<u8>, name: seq<u8>)
    requires |e| == ENT && Padded(e) && e[0] != 0 && 0 < |name| <= NAME_MAX
    ensures Matches(e, name) <==> EntName(e) == Stem(name)
  {
    var n, f := EntName(e), e[..24];
    NameHasNoNul(f);
    hide Name, Stem, Fills;
    assert f[..|name|] == e[..|name|] && (|name| < 24 ==> f[|name|] == e[|name|]);
    if Matches(e, name) {
      PrefixStem(f, n, name);
    }
    if n == Stem(name) {
      StemPrefix(f, name);
    }
  }

  /** What a freshly created entry says; its name is the one asked for unless that has a NUL. */
  lemma NewEntryFields(name: seq<u8>, first: nat)
    requires 0 < |name| <= NAME_MAX && first < 0x1_0000_0000
    ensures var e := NewEntry(name, first);
      && EntSector(e) == first && EntLen(e) == 0 && e[0] == name[0]
      && (EntName(e) == name <==> 0 !in name)
  {
    var e := NewEntry(name, first);
    LeRoundTrip(first, 4);
    Pow256Four();
    assert e[24..28] == LeBytes(first, 4);
    assert e[28..32] == Zeros(4);
    ZerosValue(4);
    if 0 !in name {
      NameIs(e[..24], name);
      assert e[..24][..|name|] == name;
    } else {
      NameHasNoNul(e[..24]);
    }
  }

  lemma StemFills(f: seq<u8>, name: seq<u8>)
    requires Fills(f, name)
    ensures Fills(f, Stem(name))
  {
    StemShape(name);
    assert |name| <= |f|;
    hide Stem, Fills;
    forall k | 0 <= k < |f| ensures f[k] == if k < |Stem(name)| then Stem(name)[k] else 0 {
      FillsAt(f, name, k);
      if k < |name| {
        FillsAt(name, Stem(name), k);
      }
    }
    FillsBy(f, Stem(name));
  }

  lemma {:induction false} NamePadded(n: seq<u8>, k: nat)
    requires 0 !in n
    ensures Name(n + Zeros(k)) == n && (n != [] ==> (n + Zeros(k))[0] != 0)
  {
    if n != [] {
      assert n[0] in n && (n + Zeros(k))[1..] == n[1..] + Zeros(k);
      NamePadded(n[1..], k);
    }
  }

  lemma FilledName(f: seq<u8>, n: seq<u8>)
    requires n != [] && 0 !in n && Fills(f, n)
    ensures f[0] != 0 && Name(f) == n
  {
    NamePadded(n, |f| - |n|);
  }

  /** A field that starts with a wholesome name and goes on with NULs holds the name's stem. */
  lemma WholesomeField(f: seq<u8>, name: seq<u8>)
    requires Fills(f, name) && Wholesome(name)
    ensures |f| > 0 && f[0] != 0 && Name(f) == Stem(name) && Fills(f, Name(f))
  {
    StemFills(f, name);
    hide Stem, Name, Fills;
    FilledName(f, Stem(name));
  }

  lemma PaddedField(f: seq<u8>, name: seq<u8>)
    requires name != [] && Fills(f, name) && f[0] != 0 && Fills(f, Name(f))
    ensures Wholesome(name)
  {
    NameHasNoNul(f);
    hide Stem, Name;
    assert f[..|name|] == name;
    PrefixStem(f, Name(f), name);
  }

  /** It is a sound live entry exactly when the name is wholesome, and then it is named by its stem. */
  lemma NewEntryPadded(name: seq<u8>, first: nat)
    requires 0 < |name| <= NAME_MAX
    ensures var e := NewEntry(name, first);
      (e[0] != 0 && Padded(e) <==> Wholesome(name)) && (Wholesome(name) ==> EntName(e) == Stem(name))
  {
    var e := NewEntry(name, first);
    assert Fills(e[..24], name);
    assert e[0] == e[..24][0];
    NameHasNoNul(e[..24]);
    hide Name, Stem, NewEntry, Wholesome, Fills;
    if Wholesome(name) {
      WholesomeField(e[..24], name);
    }
    if e[0] != 0 && Padded(e) {
      PaddedField(e[..24], name);
    }
  }

  lemma {:induction false} ZerosValue(n: nat)
    ensures LeWord(Zeros(n)) == 0
  {
    if n > 0 {
      ZerosValue(n - 1);
      assert Zeros(n)[1..] == Zeros(n - 1);
    }
  }

  // ---- Extents -----------------------------------------------------------------------

  /** k sectors from `first`, as bytes. */
  function Extent(disk: seq<Sector>, first: nat, k: nat): (b: seq<u8>)
    requires first + k <= |disk|
    ensures |b| == 512 * k
  {
    if k == 0 then [] else Extent(disk, first, k - 1) + disk[first + k - 1]
  }

  lemma {:induction false} ExtentByte(disk: seq<Sector>, first: nat, k: nat, pos: nat)
    requires first + k <= |disk| && pos < 512 * k
    ensures Extent(disk, first, k)[pos] == disk[first + pos / 512][pos % 512]
  {
    if pos < 512 * (k - 1) {
      ExtentByte(disk, first, k - 1, pos);
    } else {
      assert pos / 512 == k - 1;
    }
  }

  lemma {:induction false} ExtentFrame(disk: seq<Sector>, disk': seq<Sector>, first: nat, k: nat)
    requires first + k <= |disk| == |disk'| && forall s | first <= s < first + k :: disk'[s] == disk[s]
    ensures Extent(disk', first, k) == Extent(disk, first, k)
  {
    if k > 0 {
      ExtentFrame(disk, disk', first, k - 1);
    }
  }

  /** A read-modify-write of one sector changes one byte of the extent. */
  lemma ExtentWrite(disk: seq<Sector>, first: nat, k: nat, pos: nat, b: u8)
    requires first + k <= |disk| && pos < 512 * k
    ensures var s := first + pos / 512;
      var disk' := disk[s := PutByte(disk[s], pos % 512, b)];
      Extent(disk', first, k) == PutByte(Extent(disk, first, k), pos, b)
  {
    var s := first + pos / 512;
    var disk' := disk[s := PutByte(disk[s], pos % 512, b)];
    forall q | 0 <= q < 512 * k
      ensures Extent(disk', first, k)[q] == PutByte(Extent(disk, first, k), pos, b)[q]
    {
      ExtentByte(disk, first, k, q);
      ExtentByte(disk', first, k, q);
      if q != pos && q / 512 == pos / 512 {
        assert q % 512 != pos % 512;
      }
    }
  }

  // ---- The volume ----------------------------------------------------------------------

  /** A live file's name and length; its bytes are the extent with the same number. */
  datatype File = File(name: seq<u8>, len: nat)

  /** The live files in directory order, and the 32 extents. */
  datatype Vol = Vol(files: seq<File>, data: seq<seq<u8>>)

  predicate NameOk(name: seq<u8>) { 0 < |name| <= NAME_MAX && 0 !in name }

  ghost predicate VolOk(v: Vol) {
    && |v.files| <= MAX_FILES && |v.data| == MAX_FILES
    && (forall i | 0 <= i < |v.files| :: NameOk(v.files[i].name) && v.files[i].len <= FILE_CAP)
    && (forall i | 0 <= i < |v.data| :: |v.data[i]| == FILE_CAP)
    && (forall i, j | 0 <= i < j < |v.files| :: v.files[i].name != v.files[j].name)
  }

  function FileOf(dir: seq<u8>, i: nat): File
    requires |dir| == MAX_FILES * ENT && i < MAX_FILES
  {
    File(EntName(Entry(dir, i)), EntLen(Entry(dir, i)))
  }

  function FilesOf(dir: seq<u8>, n: nat): (f: seq<File>)
    requires |dir| == MAX_FILES * ENT && n <= MAX_FILES
    ensures |f| == n && forall i | 0 <= i < n :: f[i] == FileOf(dir, i)
  {
    if n == 0 then [] else FilesOf(dir, n - 1) + [FileOf(dir, n - 1)]
  }

  function ExtentsOf(disk: seq<Sector>, n: nat): (d: seq<seq<u8>>)
    requires |disk| == DISK_SECTORS && n <= MAX_FILES
    ensures |d| == n && forall i | 0 <= i < n :: d[i] == Extent(disk, DATA_LBA + 8 * i, 8)
  {
    if n == 0 then [] else ExtentsOf(disk, n - 1) + [Extent(disk, DATA_LBA + 8 * (n - 1), 8)]
  }

  /** What a disk and a directory stand for. */
  function VolOf(disk: seq<Sector>, dir: seq<u8>, n: nat): Vol
    requires |disk| == DISK_SECTORS && |dir| == MAX_FILES * ENT && n <= MAX_FILES
  {
    Vol(FilesOf(dir, n), ExtentsOf(disk, MAX_FILES))
  }

  /** The first n entries are live, each owning the extent with its own number; the rest are free. */
  ghost predicate DirOk(dir: seq<u8>, n: nat) {
    && |dir| == MAX_FILES * ENT && n <= MAX_FILES
    && (forall i | 0 <= i < n :: LiveAt(dir, i))
    && (forall i | n <= i < MAX_FILES :: Entry(dir, i)[0] == 0)
    && (forall i, j | 0 <= i < j < n :: EntName(Entry(dir, i)) != EntName(Entry(dir, j)))
  }

  ghost predicate LiveAt(dir: seq<u8>, i: nat)
    requires |dir| == MAX_FILES * ENT && i < MAX_FILES
  {
    var e := Entry(dir, i);
    e[0] != 0 && Padded(e) && EntSector(e) == DATA_LBA + 8 * i && EntLen(e) <= FILE_CAP
  }

  /** The disk holds the directory and the superblock as cached. */
  ghost predicate Synced(disk: seq<Sector>, dir: seq<u8>, nextFree: nat) {
    && |disk| == DISK_SECTORS && Extent(disk, DIR_LBA, 2) == dir
    && disk[SB_LBA][..8] == Magic() && LeWord(disk[SB_LBA][8..12]) == nextFree
  }

  ghost predicate FsOk(disk: seq<Sector>, dir: seq<u8>, nextFree: nat, n: nat) {
    DirOk(dir, n) && Synced(disk, dir, nextFree) && nextFree == DATA_LBA + 8 * n
  }

  lemma FsOkVol(disk: seq<Sector>, dir: seq<u8>, nextFree: nat, n: nat)
    requires FsOk(disk, dir, nextFree, n)
    ensures VolOk(VolOf(disk, dir, n)) && nextFree + 8 * (MAX_FILES - n) == 516 <= DISK_SECTORS
  {
    var v := VolOf(disk, dir, n);
    forall i | 0 <= i < n
      ensures NameOk(v.files[i].name) && v.files[i].len <= FILE_CAP
    {
      assert LiveAt(dir, i);
      NameHasNoNul(Entry(dir, i)[..24]);
    }
  }

  /** Writing through the directory sector of a changed entry keeps disk and cache in step. */
  lemma FlushSyncs(disk: seq<Sector>, dir: seq<u8>, nextFree: nat, i: nat, e: seq<u8>)
    requires Synced(disk, dir, nextFree) && |dir| == MAX_FILES * ENT && i < MAX_FILES && |e| == ENT
    ensures var dir', s := SetEntry(dir, i, e), i / 16;
      Synced(disk[DIR_LBA + s := dir'[512 * s..512 * s + 512]], dir', nextFree)
  {
    var dir', s := SetEntry(dir, i, e), i / 16;
    var disk' := disk[DIR_LBA + s := dir'[512 * s..512 * s + 512]];
    forall p | 0 <= p < 1024
      ensures Extent(disk', DIR_LBA, 2)[p] == dir'[p]
    {
      ExtentByte(disk, DIR_LBA, 2, p);
      ExtentByte(disk', DIR_LBA, 2, p);
    }
    assert Extent(disk', DIR_LBA, 2) == dir';
  }
}
