/** Open files and what happens to them: a handle keeps the header it was opened with (filesys/openfile.cc), and
    Remove does not look for open handles (filesys/filesys.cc). */
module FileSystemHandles {
  import opened Base
  import opened ByteInts
  import opened Bytes
  import opened DiskImage
  import opened WordBits
  import opened Bitmaps
  import opened FileHeaders
  import opened Directories
  import opened FileSystemSpec
  import opened FileSystemProofs

  // ----- handles to listed files -----

  /** A handle to a file that is still listed, with its current header, is harmless. */
  lemma CurrentHarmless(d: Image, i: int)
    requires Sound(d) && 0 <= i < NUM_DIR_ENTRIES && Listing(d)[i].inUse
    ensures Opens(d, Listing(d)[i]) && Harmless(d, HeaderAt(d, Listing(d)[i].sector))
  {
    SoundFiles(d);
    OwnedApart(d, i);
    hide Sound, Listing, SystemSectors, Rooted, ValidHeader, DecodeHeader, Owned, FilesOpen, FilesApart;
    var (t, system) := (Listing(d), SystemSectors(d));
    OwnedRange(d, t[i]);
    forall s | s in Data(HeaderAt(d, t[i].sector))
      ensures s !in system && forall j :: 0 <= j < NUM_DIR_ENTRIES && t[j].inUse ==> t[j].sector != s
    {
      forall j | 0 <= j < NUM_DIR_ENTRIES && t[j].inUse ensures t[j].sector != s {
        Apart(d, t, system, i, j, s);
      }
    }
  }

  lemma SoundFiles(d: Image)
    requires Sound(d)
    ensures FilesOpen(d, Listing(d)) && FilesApart(d, Listing(d), SystemSectors(d))
  {
  }

  lemma Apart(d: Image, t: Table, system: set<int>, i: int, j: int, s: int)
    requires FilesOpen(d, t) && FilesApart(d, t, system)
    requires 0 <= i < NUM_DIR_ENTRIES && t[i].inUse && 0 <= j < NUM_DIR_ENTRIES && t[j].inUse
    requires s in Data(HeaderAt(d, t[i].sector))
    ensures t[j].sector != s
  {
    OwnedRange(d, t[i]);
    OwnedRange(d, t[j]);
    hide Owned, ValidHeader, DecodeHeader;
    if i < j {
      assert Owned(d, t[i]) !! Owned(d, t[j]);
    } else if j < i {
      assert Owned(d, t[j]) !! Owned(d, t[i]);
    }
  }

  ghost predicate SameFile(d: Image, d': Image, e: Entry)
    requires Opens(d, e)
  {
    && Opens(d', e) && HeaderAt(d', e.sector) == HeaderAt(d, e.sector)
    && FileBytes(d', HeaderAt(d', e.sector)) == FileBytes(d, HeaderAt(d, e.sector))
  }

  /** None of the handle's data sectors belongs to file e. */
  ghost predicate Avoids(h: Header, d: Image, e: Entry)
    requires 0 <= h.numSectors <= |h.dataSectors| && Opens(d, e)
  {
    forall s :: s in Data(h) ==> s !in Owned(d, e)
  }

  /** A write leaves a file alone if it goes to none of its sectors. */
  lemma WroteKeepsOthers(d: Image, d': Image, h: Header, e: Entry)
    requires Wrote(d, d', h) && Opens(d, e) && Avoids(h, d, e)
    ensures SameFile(d, d', e)
  {
    hide FileBytes, ValidHeader, DecodeHeader, Owned;
    OwnedRange(d, e);
    SameHeader(d, d', e);
    FileFrame(d, d', HeaderAt(d, e.sector));
  }

  /** No call but Remove of file i and a write into its sectors changes file i or its place in the directory. */
  lemma HappensKeepsFile(d: Image, a: Action, d': Image, i: int)
    requires Sound(d) && Happens(d, a, d') && 0 <= i < NUM_DIR_ENTRIES && Listing(d)[i].inUse
    requires !(a.DidRemove? && a.entry == i)
    ensures Opens(d, Listing(d)[i]) && Rooted(d') && Listing(d')[i] == Listing(d)[i]
    ensures Opens(d', Listing(d)[i]) && HeaderAt(d', Listing(d)[i].sector) == HeaderAt(d, Listing(d)[i].sector)
    ensures (a.DidWrite? ==> Avoids(a.handle, d, Listing(d)[i])) ==> SameFile(d, d', Listing(d)[i])
  {
    OwnedApart(d, i);
    match a
    case DidCreate(name, size, sector, data, slot) => CreatedKeepsOthers(d, d', name, size, sector, data, slot, i);
    case DidRemove(name, k) => RemovedKeepsOthers(d, d', name, k, i);
    case DidWrite(h) =>
      HarmlessKeepsHeader(d, d', h, i);
      hide Sound, Listing, FileBytes, Owned, Wrote, Harmless, ValidHeader, DecodeHeader, SystemSectors, Rooted;
      if Avoids(h, d, Listing(d)[i]) {
        WroteKeepsOthers(d, d', h, Listing(d)[i]);
      }
    case DidFail =>
  }

  lemma HarmlessKeepsHeader(d: Image, d': Image, h: Header, i: int)
    requires Sound(d) && Wrote(d, d', h) && Harmless(d, h) && 0 <= i < NUM_DIR_ENTRIES && Listing(d)[i].inUse
    ensures Rooted(d') && Listing(d') == Listing(d) && Opens(d, Listing(d)[i]) && Opens(d', Listing(d)[i])
    ensures HeaderAt(d', Listing(d)[i].sector) == HeaderAt(d, Listing(d)[i].sector)
  {
    OwnedApart(d, i);
    assert Rooted(d);
    HarmlessMeans(d, h, i);
    HeaderInRange(d, Listing(d)[i]);
    assert d'[Listing(d)[i].sector] == d[Listing(d)[i].sector];
    hide Sound, Listing, FreeMap, SystemSectors, ValidHeader, DecodeHeader, Opens, Rooted, Harmless;
    SystemKept(d, d', set s | s in Data(h));
    SameHeader(d, d', Listing(d)[i]);
  }

  lemma HarmlessMeans(d: Image, h: Header, i: int)
    requires Rooted(d) && ValidHeader(h) && Harmless(d, h) && 0 <= i < NUM_DIR_ENTRIES && Listing(d)[i].inUse
    ensures (set s | s in Data(h)) !! SystemSectors(d) && Listing(d)[i].sector !in Data(h)
  {
    hide Listing, SystemSectors, Rooted;
    forall s | s in Data(h) ensures s !in SystemSectors(d) && s != Listing(d)[i].sector {
    }
  }

  /** Nothing is removed from entry i in the run. */
  ghost predicate Spares(run: seq<Action>, i: int) {
    forall n :: 0 <= n < |run| ==> !(run[n].DidRemove? && run[n].entry == i)
  }

  ghost predicate IsRun(disks: seq<Image>, run: seq<Action>) {
    |disks| == |run| + 1 && forall n :: 0 <= n < |run| ==> Happens(disks[n], run[n], disks[n + 1])
  }

  lemma RunFront(disks: seq<Image>, run: seq<Action>, i: int)
    requires IsRun(disks, run) && run != [] && Spares(run, i)
    ensures var n := |run| - 1;
      && |disks| == n + 2 && IsRun(disks[..n + 1], run[..n]) && Spares(run[..n], i)
      && Happens(disks[n], run[n], disks[n + 1]) && !(run[n].DidRemove? && run[n].entry == i)
  {
    hide Happens;
    var n := |run| - 1;
    forall k | 0 <= k < n ensures Happens(disks[..n + 1][k], run[..n][k], disks[..n + 1][k + 1]) {
      assert Happens(disks[k], run[k], disks[k + 1]);
    }
  }

  /** Entry i and its header are the same on both disks. */
  ghost predicate StillThere(d: Image, d': Image, i: int)
    requires Rooted(d) && 0 <= i < NUM_DIR_ENTRIES
  {
    && Opens(d, Listing(d)[i]) && Rooted(d') && Listing(d')[i] == Listing(d)[i]
    && HeaderAt(d', Listing(d)[i].sector) == HeaderAt(d, Listing(d)[i].sector)
  }

  lemma StillThereStep(d: Image, d': Image, a: Action, d'': Image, i: int)
    requires Sound(d) && Sound(d') && 0 <= i < NUM_DIR_ENTRIES && Listing(d)[i].inUse && StillThere(d, d', i)
    requires Happens(d', a, d'') && !(a.DidRemove? && a.entry == i)
    ensures StillThere(d, d'', i)
  {
    HappensKeepsFile(d', a, d'', i);
  }

  lemma {:induction false} StillThereRun(disks: seq<Image>, run: seq<Action>, i: int)
    requires IsRun(disks, run) && Spares(run, i) && Sound(disks[0])
    requires 0 <= i < NUM_DIR_ENTRIES && Listing(disks[0])[i].inUse
    ensures StillThere(disks[0], disks[|run|], i)
  {
    hide Sound, Listing, Happens, StillThere, Rooted, Spares;
    if run == [] {
      StillThereAtOnce(disks[0], i);
    } else {
      var n := |run| - 1;
      RunFront(disks, run, i);
      StillThereRun(disks[..n + 1], run[..n], i);
      RunSound(disks[..n + 1], run[..n]);
      StillThereStep(disks[0], disks[n], run[n], disks[n + 1], i);
    }
  }

  lemma StillThereAtOnce(d: Image, i: int)
    requires Sound(d) && 0 <= i < NUM_DIR_ENTRIES && Listing(d)[i].inUse
    ensures StillThere(d, d, i)
  {
    OwnedApart(d, i);
  }

  lemma RunSound(disks: seq<Image>, run: seq<Action>)
    requires IsRun(disks, run) && Sound(disks[0])
    ensures Sound(disks[|run|])
  {
    hide Sound, Happens;
    RunKeeps(disks, run);
  }

  /** A handle stays current, and harmless, through every run in which its file is not removed. */
  lemma HandleStaysCurrent(disks: seq<Image>, run: seq<Action>, i: int)
    requires IsRun(disks, run) && Spares(run, i) && Sound(disks[0])
    requires 0 <= i < NUM_DIR_ENTRIES && Listing(disks[0])[i].inUse
    ensures Sound(disks[|run|]) && StillThere(disks[0], disks[|run|], i)
    ensures Harmless(disks[|run|], HeaderAt(disks[0], Listing(disks[0])[i].sector))
  {
    StillThereRun(disks, run, i);
    RunKeeps(disks, run);
    CurrentHarmless(disks[|run|], i);
  }

  // ----- exactly which handles are harmless -----

  /** A byte of all ones. */
  function Filler(): byte { ByteOf(255) }

  ghost predicate AllAre(b: seq<byte>, x: byte) { forall i :: 0 <= i < |b| ==> b[i] == x }

  ghost predicate IsOnes(b: seq<byte>) { AllAre(b, Filler()) }

  lemma MinusOne()
    ensures IntBytes(-1) == [Filler(), Filler(), Filler(), Filler()]
  {
    hide ByteOf;
  }

  lemma OnesInt(b: seq<byte>)
    requires |b| == 4 && IsOnes(b)
    ensures BytesInt(b) == -1
  {
    hide BytesInt, IntBytes, Filler;
    MinusOne();
    assert b == IntBytes(-1);
    IntRoundTrip(-1);
  }

  /** All ones are no file header. */
  lemma OnesHeader(s: Sector)
    requires IsOnes(s)
    ensures !ValidHeader(DecodeHeader(s))
  {
    hide Filler, BytesInt;
    OnesInt(s[0..4]);
    assert UnpackInts(s)[0] == BytesInt(s[0..4]);
  }

  /** All ones are a directory entry in use that names no sector. */
  lemma OnesEntry(b: seq<byte>)
    requires |b| == ENTRY_SIZE && IsOnes(b)
    ensures BytesEntry(b).inUse && BytesEntry(b).sector == -1
  {
    hide BytesInt, Filler;
    OnesByte();
    OnesInt(b[4..8]);
  }

  lemma OnesByte()
    ensures Filler() != 0
  {
    hide ByteOf;
    ByteInt(255);
    assert IntOf(0) == 0;
  }

  /** The disks differ in at most one sector. */
  ghost predicate OnlyAt(d: Image, d': Image, s: int) {
    forall x :: 0 <= x < NUM_SECTORS && x != s ==> d'[x] == d[x]
  }

  lemma BreakRoot(d: Image)
    requires IsOnes(d[FREE_MAP_SECTOR]) || IsOnes(d[DIRECTORY_SECTOR])
    ensures !Sound(d)
  {
    hide ValidHeader, DecodeHeader, IsOnes;
    if IsOnes(d[FREE_MAP_SECTOR]) {
      OnesHeader(d[FREE_MAP_SECTOR]);
    } else {
      OnesHeader(d[DIRECTORY_SECTOR]);
    }
  }

  lemma NotOpen(d: Image, e: Entry)
    requires 0 <= e.sector < NUM_SECTORS && IsOnes(d[e.sector])
    ensures !Opens(d, e)
  {
    hide ValidHeader, DecodeHeader, IsOnes;
    OnesHeader(d[e.sector]);
  }

  lemma NotSound(d: Image, i: int)
    requires Rooted(d) && 0 <= i < NUM_DIR_ENTRIES && Listing(d)[i].inUse && !Opens(d, Listing(d)[i])
    ensures !Sound(d)
  {
    hide Listing, FreeMap, Opens, Rooted, SystemSectors;
  }

  lemma BreakHeader(d: Image, d': Image, i: int)
    requires Sound(d) && 0 <= i < NUM_DIR_ENTRIES && Listing(d)[i].inUse && 0 <= Listing(d)[i].sector < NUM_SECTORS
    requires OnlyAt(d, d', Listing(d)[i].sector) && IsOnes(d'[Listing(d)[i].sector])
    ensures !Sound(d')
  {
    OwnedApart(d, i);
    OwnedRange(d, Listing(d)[i]);
    assert Rooted(d);
    hide Sound, Listing, Rooted, SystemSectors, Owned, Opens, IsOnes;
    var e := Listing(d)[i];
    SystemKept(d, d', {e.sector});
    NotOpen(d', e);
    NotSound(d', i);
  }

  lemma FirstBit(b: seq<byte>)
    requires |b| == FREE_MAP_FILE_SIZE
    ensures MapBits(b)[0] == Bit(BytesWord(b[0..4]), 0)
  {
    hide Bit, BytesWord;
    assert UnpackWords(b)[0] == BytesWord(b[0..4]);
  }

  lemma ZeroBit(b: seq<byte>)
    requires |b| == 4 && b[0] == 0 && b[1] == 0 && b[2] == 0 && b[3] == 0
    ensures !Bit(BytesWord(b), 0)
  {
    assert BytesWord(b) == 0;
  }

  lemma ZeroWords(b: seq<byte>, zero: byte)
    requires |b| == FREE_MAP_FILE_SIZE && zero == 0 && AllAre(b, zero)
    ensures !MapBits(b)[0]
  {
    hide Bit, BytesWord, MapBits;
    FirstBit(b);
    var front := b[0..4];
    assert front[0] == zero && front[1] == zero && front[2] == zero && front[3] == zero;
    ZeroBit(front);
  }

  lemma OneSectorFile(d: Image, h: Header, s: int, x: byte)
    requires ValidHeader(h) && h.numBytes == FREE_MAP_FILE_SIZE && s in Data(h)
    requires 0 <= s < NUM_SECTORS && AllAre(d[s], x)
    ensures AllAre(FileBytes(d, h), x)
  {
    hide Distinct;
    var b := FileBytes(d, h);
    assert h.numSectors == 1 && Data(h)[0] == s;
    forall k | 0 <= k < |b| ensures b[k] == x {
      assert b[k] == d[h.dataSectors[k / SECTOR_SIZE]][k % SECTOR_SIZE] && k / SECTOR_SIZE == 0;
    }
  }

  lemma MapEmptied(d: Image, h: Header, s: int, zero: byte)
    requires ValidHeader(h) && h.numBytes == FREE_MAP_FILE_SIZE && s in Data(h)
    requires 0 <= s < NUM_SECTORS && zero == 0 && AllAre(d[s], zero)
    ensures !MapBits(FileBytes(d, h))[0]
  {
    hide ValidHeader, FileBytes, AllAre, MapBits;
    OneSectorFile(d, h, s, zero);
    ZeroWords(FileBytes(d, h), zero);
  }

  lemma SameRoots(d: Image, d': Image, s: int)
    requires Rooted(d) && OnlyAt(d, d', s) && s != FREE_MAP_SECTOR && s != DIRECTORY_SECTOR
    ensures MapHeader(d') == MapHeader(d) && DirHeader(d') == DirHeader(d) && Rooted(d')
  {
    hide DecodeHeader, ValidHeader;
  }

  lemma BreakMap(d: Image, d': Image, s: int)
    requires Rooted(d) && SystemApart(d) && s in Data(MapHeader(d)) && 0 <= s < NUM_SECTORS
    requires OnlyAt(d, d', s) && AllAre(d'[s], 0)
    ensures !Sound(d')
  {
    SameRoots(d, d', s);
    MapEmptied(d', MapHeader(d), s, 0);
    assert !FreeMap(d')[0];
    hide MapHeader, DirHeader, ValidHeader, FreeMap, Listing, OnlyAt;
    RootSectors(d');
    RootMarked(d');
  }

  lemma RootMarked(d: Image)
    requires Rooted(d) && FREE_MAP_SECTOR in SystemSectors(d) && !FreeMap(d)[FREE_MAP_SECTOR]
    ensures !Sound(d)
  {
    hide Rooted, FreeMap, Listing, SystemSectors;
  }

  /** Entry 0 lies in the directory's first sector and entry 9 in its second. */
  lemma EntryOnes(d: Image, h: Header, m: int, i: int)
    requires ValidHeader(h) && h.numBytes == DIRECTORY_FILE_SIZE && h.numSectors == 2
    requires (m == 0 && i == 0) || (m == 1 && i == 9)
    requires IsOnes(d[h.dataSectors[m]])
    ensures IsOnes(FileBytes(d, h)[ENTRY_SIZE * i..ENTRY_SIZE * i + ENTRY_SIZE])
  {
    hide Filler, Distinct;
    var b := FileBytes(d, h);
    var slice := b[ENTRY_SIZE * i..ENTRY_SIZE * i + ENTRY_SIZE];
    forall k | 0 <= k < ENTRY_SIZE ensures slice[k] == Filler() {
      var at := ENTRY_SIZE * i + k;
      assert at / SECTOR_SIZE == m;
      assert slice[k] == b[at] == d[h.dataSectors[m]][at % SECTOR_SIZE];
    }
  }

  lemma TwoSectors(h: Header, s: int) returns (m: int)
    requires ValidHeader(h) && h.numBytes == DIRECTORY_FILE_SIZE && s in Data(h)
    ensures h.numSectors == 2 && 0 <= m < 2 && h.dataSectors[m] == s
  {
    m :| 0 <= m < h.numSectors && Data(h)[m] == s;
  }

  lemma FullEntry(d: Image, h: Header, s: int) returns (i: int)
    requires ValidHeader(h) && h.numBytes == DIRECTORY_FILE_SIZE && s in Data(h)
    requires 0 <= s < NUM_SECTORS && IsOnes(d[s])
    ensures 0 <= i < NUM_DIR_ENTRIES
    ensures BytesTable(FileBytes(d, h))[i].inUse && BytesTable(FileBytes(d, h))[i].sector == -1
  {
    hide FileBytes, BytesEntry, IsOnes, ValidHeader;
    var m := TwoSectors(h, s);
    i := if m == 0 then 0 else 9;
    EntryOnes(d, h, m, i);
    OnesEntry(FileBytes(d, h)[ENTRY_SIZE * i..ENTRY_SIZE * i + ENTRY_SIZE]);
  }

  lemma BreakDirectory(d: Image, d': Image, s: int)
    requires Rooted(d) && SystemApart(d) && s in Data(DirHeader(d)) && 0 <= s < NUM_SECTORS
    requires OnlyAt(d, d', s) && IsOnes(d'[s])
    ensures !Sound(d')
  {
    SameRoots(d, d', s);
    hide BytesTable, FileBytes, IsOnes, OnlyAt;
    var i := FullEntry(d', DirHeader(d), s);
    assert Listing(d')[i].inUse && Listing(d')[i].sector == -1;
    NotSound(d', i);
  }

  /** A disk that a write through h can leave, and that is not sound. */
  ghost predicate Spoils(d: Image, d': Image, h: Header) { Wrote(d, d', h) && !Sound(d') }

  lemma OneWrote(d: Image, d': Image, h: Header, s: int)
    requires ValidHeader(h) && s in Data(h) && OnlyAt(d, d', s)
    ensures Wrote(d, d', h)
  {
    hide ValidHeader;
  }

  ghost function With(d: Image, s: int, x: Sector): (d': Image)
    requires 0 <= s < NUM_SECTORS
    ensures OnlyAt(d, d', s) && d'[s] == x
  {
    d[s := x]
  }

  function Filled(x: byte): (s: Sector)
    ensures AllAre(s, x)
  {
    seq(SECTOR_SIZE, _ => x)
  }

  lemma SystemCases(d: Image, s: int)
    requires Rooted(d) && s in SystemSectors(d)
    ensures 0 <= MapHeader(d).numSectors <= |MapHeader(d).dataSectors|
    ensures 0 <= DirHeader(d).numSectors <= |DirHeader(d).dataSectors|
    ensures s == FREE_MAP_SECTOR || s == DIRECTORY_SECTOR || s in Data(MapHeader(d)) || s in Data(DirHeader(d))
  {
    hide DecodeHeader, Distinct;
  }

  lemma SystemSpoiled(d: Image, s: int) returns (d': Image)
    requires Sound(d) && s in SystemSectors(d) && 0 <= s < NUM_SECTORS
    ensures OnlyAt(d, d', s) && !Sound(d')
  {
    assert Rooted(d) && SystemApart(d);
    SystemCases(d, s);
    hide Sound, AllAre, Filler, MapHeader, DirHeader, SystemSectors, Rooted, SystemApart, ValidHeader;
    if s == FREE_MAP_SECTOR || s == DIRECTORY_SECTOR {
      d' := With(d, s, Filled(Filler()));
      BreakRoot(d');
    } else if s in Data(MapHeader(d)) {
      d' := With(d, s, Filled(0));
      BreakMap(d, d', s);
    } else {
      d' := With(d, s, Filled(Filler()));
      BreakDirectory(d, d', s);
    }
  }

  lemma HarmfulSpoils(d: Image, h: Header) returns (d': Image)
    requires Sound(d) && ValidHeader(h) && !Harmless(d, h)
    ensures Spoils(d, d', h)
  {
    SectorRange(h);
    assert Rooted(d);
    var s :| s in Data(h) && !(s !in SystemSectors(d)
      && forall i :: 0 <= i < NUM_DIR_ENTRIES && Listing(d)[i].inUse ==> Listing(d)[i].sector != s);
    hide Sound, Harmless, ValidHeader, Listing, SystemSectors, Rooted, AllAre, Filler;
    if s in SystemSectors(d) {
      d' := SystemSpoiled(d, s);
    } else {
      var i :| 0 <= i < NUM_DIR_ENTRIES && Listing(d)[i].inUse && Listing(d)[i].sector == s;
      d' := With(d, s, Filled(Filler()));
      BreakHeader(d, d', i);
    }
    OneWrote(d, d', h, s);
  }

  /** A handle can be written through without risk to the ownership invariant, whatever the data, if and only if its
      sectors are neither the system's nor the header of a listed file. */
  lemma HarmlessExactly(d: Image, h: Header)
    requires Sound(d) && ValidHeader(h)
    ensures Harmless(d, h) <==> forall d' :: Wrote(d, d', h) ==> Sound(d')
  {
    assert Rooted(d);
    hide Sound, Harmless, ValidHeader, Wrote, Rooted;
    if Harmless(d, h) {
      forall d' | Wrote(d, d', h) ensures Sound(d') {
        WroteKeeps(d, d', h);
      }
    } else {
      var d' := HarmfulSpoils(d, h);
    }
  }

  // ----- exactly which files a handle can reach -----

  lemma LastByteIn(h: Header, m: int)
    requires ValidHeader(h) && 0 <= m < h.numSectors
    ensures m * SECTOR_SIZE < h.numBytes
  {
    hide Distinct;
  }

  lemma ByteChanged(d: Image, d': Image, h: Header, m: int)
    requires ValidHeader(h) && 0 <= m < h.numSectors && d'[h.dataSectors[m]][0] != d[h.dataSectors[m]][0]
    ensures FileBytes(d', h) != FileBytes(d, h)
  {
    LastByteIn(h, m);
    var k := m * SECTOR_SIZE;
    assert k / SECTOR_SIZE == m && k % SECTOR_SIZE == 0;
    assert FileBytes(d', h)[k] != FileBytes(d, h)[k];
  }

  /** A sector with another first byte. */
  function Altered(x: Sector): (y: Sector)
    ensures y[0] != x[0]
  {
    x[0 := if x[0] == 0 then 1 else 0]
  }

  lemma ReachesHeader(d: Image, e: Entry) returns (d': Image)
    requires Opens(d, e)
    ensures OnlyAt(d, d', e.sector) && !SameFile(d, d', e)
  {
    HeaderInRange(d, e);
    hide Opens, AllAre, Filler;
    d' := With(d, e.sector, Filled(Filler()));
    NotOpen(d', e);
  }

  lemma ReachesData(d: Image, e: Entry, s: int) returns (d': Image)
    requires Opens(d, e) && s in Owned(d, e) && s != e.sector
    ensures OnlyAt(d, d', s) && !SameFile(d, d', e)
  {
    var h := HeaderAt(d, e.sector);
    var m := OwnedAt(d, e, s);
    hide Opens, Owned, ValidHeader, DecodeHeader, FileBytes;
    d' := With(d, s, Altered(d[s]));
    ByteChanged(d, d', h, m);
  }

  lemma OwnedAt(d: Image, e: Entry, s: int) returns (m: int)
    requires Opens(d, e) && s in Owned(d, e) && s != e.sector
    ensures 0 <= s < NUM_SECTORS && ValidHeader(HeaderAt(d, e.sector))
    ensures 0 <= m < HeaderAt(d, e.sector).numSectors && HeaderAt(d, e.sector).dataSectors[m] == s
  {
    hide DecodeHeader;
    m := FileSectorAt(HeaderAt(d, e.sector), e.sector, s);
  }

  lemma FileSectorAt(h: Header, sector: int, s: int) returns (m: int)
    requires ValidHeader(h) && s in FileSectors(sector, h) && s != sector
    ensures 0 <= s < NUM_SECTORS && 0 <= m < h.numSectors && h.dataSectors[m] == s
  {
    SectorRange(h);
    hide Distinct;
    m :| 0 <= m < h.numSectors && Data(h)[m] == s;
  }

  lemma ReachesFile(d: Image, h: Header, e: Entry) returns (d': Image)
    requires ValidHeader(h) && Opens(d, e) && !Avoids(h, d, e)
    ensures Wrote(d, d', h) && !SameFile(d, d', e)
  {
    var s :| s in Data(h) && s in Owned(d, e);
    hide Opens, Owned, SameFile, ValidHeader, OnlyAt;
    if s == e.sector {
      d' := ReachesHeader(d, e);
    } else {
      d' := ReachesData(d, e, s);
    }
    OneWrote(d, d', h, s);
  }

  /** Writing through a handle leaves a file as it is, whatever the data, if and only if none of the handle's sectors
      belongs to that file. */
  lemma AvoidsExactly(d: Image, h: Header, e: Entry)
    requires ValidHeader(h) && Opens(d, e)
    ensures Avoids(h, d, e) <==> forall d' :: Wrote(d, d', h) ==> SameFile(d, d', e)
  {
    hide Opens, Wrote, SameFile, Avoids;
    if Avoids(h, d, e) {
      forall d' | Wrote(d, d', h) ensures SameFile(d, d', e) {
        WroteKeepsOthers(d, d', h, e);
      }
    } else {
      var d' := ReachesFile(d, h, e);
    }
  }

  /** A handle with the current header of one listed file reaches no other. */
  lemma CurrentAvoidsOthers(d: Image, i: int, j: int)
    requires Sound(d) && 0 <= i < NUM_DIR_ENTRIES && Listing(d)[i].inUse
    requires 0 <= j < NUM_DIR_ENTRIES && j != i && Listing(d)[j].inUse
    ensures Opens(d, Listing(d)[i]) && Opens(d, Listing(d)[j])
    ensures Avoids(HeaderAt(d, Listing(d)[i].sector), d, Listing(d)[j])
  {
    OwnedApart(d, i);
    OwnedApart(d, j);
    SoundFiles(d);
    hide Sound, Listing, SystemSectors, Rooted, ValidHeader, DecodeHeader, Owned;
    var t := Listing(d);
    OwnedRange(d, t[i]);
    assert i < j ==> Owned(d, t[i]) !! Owned(d, t[j]);
    assert j < i ==> Owned(d, t[j]) !! Owned(d, t[i]);
  }
}

/** A handle that outlives its file: after Remove its sectors may be given away, even to a header. */
module StaleHandles {
  import opened Base
  import opened Bytes
  import opened DiskImage
  import opened Bitmaps
  import opened OpenFiles
  import opened FileHeaders
  import opened Directories
  import opened FileSystemSpec
  import opened FileSystemProofs
  import opened FileSystems
  import opened FileSystemHandles

  lemma FirstClearUnique(bits: seq<bool>, r: int, r': int)
    requires IsFirstClear(bits, r) && IsFirstClear(bits, r') && r >= 0
    ensures r' == r
  {
  }

  lemma SetOne(bits: seq<bool>, x: int)
    requires 0 <= x < |bits|
    ensures SetAll(bits, [x]) == bits[x := true] && SetAll(bits, [x] + []) == bits[x := true]
    ensures forall more :: SetAll(more, []) == more
  {
    assert [x] + [] == [x];
  }

  /** What Create hands out for a file of one sector. */
  lemma OneSectorChosen(bits: seq<bool>, t: Table, sector: int, data: seq<int>, slot: int)
    requires |bits| == NUM_SECTORS && Chosen(bits, t, SECTOR_SIZE, sector, data, slot)
    ensures |data| == 1 && IsFirstClear(bits, sector) && 0 <= sector && 0 <= data[0]
    ensures IsFirstClear(bits[sector := true], data[0])
  {
    assert data[..0] == [];
    SetOne(bits, sector);
  }

  lemma EmptyChosen(bits: seq<bool>, t: Table, sector: int, data: seq<int>, slot: int)
    requires |bits| == NUM_SECTORS && Chosen(bits, t, 0, sector, data, slot)
    ensures data == [] && IsFirstClear(bits, sector)
  {
  }

  /** After Remove of a one-sector file, two new empty files get its header sector and its data sector for their
      headers: on every sound disk, the old handle's data sector is now the header of a listed file. */
  lemma DataBecomesHeader(d0: Image, d1: Image, d2: Image, d3: Image, d4: Image, a: Name, b: Name, c: Name,
                          x: int, data: seq<int>, s1: int, i: int, x3: int, n3: seq<int>, s3: int,
                          x4: int, n4: seq<int>, s4: int)
    requires Sound(d0) && Created(d0, d1, a, SECTOR_SIZE, x, data, s1) && Removed(d1, d2, a, i)
    requires Created(d2, d3, b, 0, x3, n3, s3) && Created(d3, d4, c, 0, x4, n4, s4)
    ensures |data| == 1 && x4 == data[0] && 0 <= s4 < NUM_DIR_ENTRIES
    ensures Listing(d4)[s4].inUse && Listing(d4)[s4].sector == data[0]
  {
    RemoveUndoesCreate(d0, d1, d2, a, SECTOR_SIZE, x, data, s1, a, i);
    hide Sound, Listing, FreeMap, Rooted, Describes, KeepsRest, IsFirstClear, SetAll, FirstFit, IsIndex, HeaderAt,
        Opens;
    OneSectorChosen(FreeMap(d0), Listing(d0), x, data, s1);
    EmptyChosen(FreeMap(d2), Listing(d2), x3, n3, s3);
    EmptyChosen(FreeMap(d3), Listing(d3), x4, n4, s4);
    FirstClearUnique(FreeMap(d0), x, x3);
    SetOne(FreeMap(d0), x);
    FirstClearUnique(FreeMap(d0)[x := true], data[0], x4);
  }

  ghost predicate NoneInUse(t: Table) { forall i :: 0 <= i < NUM_DIR_ENTRIES ==> !t[i].inUse }

  ghost predicate Listable(t: Table) { forall i :: 0 <= i < NUM_DIR_ENTRIES ==> Storable(t[i]) }

  lemma EmptyListing(t: Table, name: Name)
    requires Listable(t) && NoneInUse(t)
    ensures IsIndex(t, name, -1) && HasFreeSlot(t)
  {
    assert !t[0].inUse;
  }

  /** A directory with one file, named b. */
  lemma OneListed(t: Table, t': Table, slot: int, sector: int, b: Name, name: Name, i: int)
    requires Listable(t) && Listable(t') && NoneInUse(t) && 0 <= slot < NUM_DIR_ENTRIES
    requires t' == t[slot := Entry(true, sector, CopyName(t[slot].name, b))] && IsIndex(t', name, i)
    ensures HasFreeSlot(t')
    ensures i == if Key(name) == Key(b) then slot else -1
    ensures i >= 0 ==> NoneInUse(t'[i := t'[i].(inUse := false)])
  {
    CopiedName(t[slot].name, b);
    hide Key, CopyName, Storable;
    assert KeyOf(t'[slot]) == Key(b);
    var other := if slot == 0 then 1 else 0;
    assert !t'[other].inUse;
  }

  lemma NoIndex(t: Table, name: Name)
    requires Listable(t) && forall i :: IsIndex(t, name, i) ==> i == -1
    ensures IsIndex(t, name, -1)
  {
    if k :| 0 <= k < NUM_DIR_ENTRIES && t[k].inUse && KeyOf(t[k]) == Key(name) {
      assert IsIndex(t, name, k);
    }
  }

  lemma FullSector(d: Image, h: Header, s: int)
    requires ValidHeader(h) && h.numBytes == SECTOR_SIZE && Data(h) == [s] && 0 <= s < NUM_SECTORS
    requires IsOnes(FileBytes(d, h))
    ensures IsOnes(d[s])
  {
    hide Filler, Distinct;
    var b := FileBytes(d, h);
    assert h.dataSectors[0] == Data(h)[0];
    forall k | 0 <= k < SECTOR_SIZE ensures d[s][k] == Filler() {
      assert k / SECTOR_SIZE == 0 && k % SECTOR_SIZE == k;
      assert b[k] == d[h.dataSectors[k / SECTOR_SIZE]][k % SECTOR_SIZE];
    }
  }

  lemma ListedInRange(d: Image, i: int)
    requires Sound(d) && 0 <= i < NUM_DIR_ENTRIES && Listing(d)[i].inUse
    ensures Rooted(d) && 0 <= Listing(d)[i].sector < NUM_SECTORS
  {
    assert Rooted(d);
    hide Sound, Listing, Owned, ValidHeader, SystemSectors, Rooted;
    OwnedApart(d, i);
  }

  /** Overwriting a listed file's header with ones, through a handle whose one data sector it now is. */
  lemma OverwrittenHeader(d: Image, d': Image, h: Header, slot: int)
    requires Sound(d) && 0 <= slot < NUM_DIR_ENTRIES && Listing(d)[slot].inUse
    requires ValidHeader(h) && h.numBytes == SECTOR_SIZE && Data(h) == [Listing(d)[slot].sector]
    requires forall s :: 0 <= s < NUM_SECTORS && s !in Data(h) ==> d'[s] == d[s]
    requires IsOnes(FileBytes(d', h))
    ensures !Sound(d')
  {
    hide Sound, Listing, FileBytes, ValidHeader, IsOnes, Rooted;
    ListedInRange(d, slot);
    FullSector(d', h, Listing(d)[slot].sector);
    BreakHeader(d, d', slot);
  }

  /** The sectors of a created file of one sector, as an opened handle has them. */
  lemma HandleOf(d: Image, d': Image, name: Name, x: int, data: seq<int>, slot: int)
    requires Sound(d) && Created(d, d', name, SECTOR_SIZE, x, data, slot)
    ensures ValidHeader(HeaderAt(d', x)) && HeaderAt(d', x).numBytes == SECTOR_SIZE && Data(HeaderAt(d', x)) == data
  {
    ChosenFresh(FreeMap(d), Listing(d), SECTOR_SIZE, x, data, slot);
    hide Sound, Listing, FreeMap, DecodeHeader;
    DescribesValid(HeaderAt(d', x), SECTOR_SIZE, data);
  }

  lemma EmptyRoom(d: Image, name: Name)
    requires Sound(d) && NoneInUse(Listing(d))
    ensures Rooted(d) && IsIndex(Listing(d), name, -1) && HasFreeSlot(Listing(d))
  {
    EmptyListing(Listing(d), name);
  }

  /** Create a file of one sector and open it. */
  method MakeHandle(fs: FileSystem, a: Name, junk: seq<int>)
    returns (f: OpenFile, ghost x: int, ghost data: seq<int>, ghost slot: int)
    requires fs.Valid() && NoneInUse(Listing(fs.disk.sectors)) && CountClear(FreeMap(fs.disk.sectors)) >= 2
    requires |junk| == NUM_DIRECT && forall i :: 0 <= i < NUM_DIRECT ==> IsInt32(junk[i])
    modifies fs.disk
    ensures fs.Valid() && Created(old(fs.disk.sectors), fs.disk.sectors, a, SECTOR_SIZE, x, data, slot)
    ensures f.disk == fs.disk && f.Valid() && f.hdr.numBytes == SECTOR_SIZE && Data(f.hdr) == data && fresh(f)
  {
    hide Sound, Listing, FreeMap, CountClear, IsIndex, Created, Opens, ValidHeader, DecodeHeader, MapHeader, DirHeader;
    hide HasFreeSlot, NoneInUse, Rooted, CopyName;
    ghost var d := fs.disk.sectors;
    EmptyRoom(d, a);
    var ok;
    ok, x, data, slot := fs.Create(a, SECTOR_SIZE, junk);
    HandleOf(d, fs.disk.sectors, a, x, data, slot);
    var file, i := fs.Open(a);
    CreatedListing(d, fs.disk.sectors, a, SECTOR_SIZE, x, data, slot);
    OneListed(Listing(d), Listing(fs.disk.sectors), slot, x, a, a, i);
    f := file;
  }

  lemma CreatedListing(d: Image, d': Image, b: Name, size: nat, x: int, data: seq<int>, slot: int)
    requires Created(d, d', b, size, x, data, slot)
    ensures Rooted(d) && Rooted(d') && 0 <= slot < NUM_DIR_ENTRIES && Listable(Listing(d)) && Listable(Listing(d'))
    ensures Listing(d') == Listing(d)[slot := Entry(true, x, CopyName(Listing(d)[slot].name, b))]
    ensures Listing(d')[slot].sector == x && Listing(d')[slot].inUse
  {
    hide FreeMap, Rooted, Describes, KeepsRest, CopyName, BytesTable, FileBytes;
  }

  /** Remove the opened file and create two empty ones: the handle's data sector becomes a header. */
  method MakeStale(fs: FileSystem, a: Name, b: Name, c: Name, junk: seq<int>) returns (f: OpenFile, ghost slot: int)
    requires fs.Valid() && NoneInUse(Listing(fs.disk.sectors)) && CountClear(FreeMap(fs.disk.sectors)) >= 2
    requires |junk| == NUM_DIRECT && forall i :: 0 <= i < NUM_DIRECT ==> IsInt32(junk[i])
    requires Key(b) != Key(c)
    modifies fs.disk
    ensures fs.Valid() && f.disk == fs.disk && f.Valid() && f.hdr.numBytes == SECTOR_SIZE
    ensures 0 <= slot < NUM_DIR_ENTRIES && Listing(fs.disk.sectors)[slot].inUse
    ensures Data(f.hdr) == [Listing(fs.disk.sectors)[slot].sector]
  {
    hide Sound, Listing, FreeMap, CountClear, IsIndex, Created, Removed, Opens, ValidHeader, DecodeHeader;
    hide HasFreeSlot, NoneInUse, Rooted, CopyName, MapHeader, DirHeader, Key;
    ghost var d0 := fs.disk.sectors;
    ghost var x, data, s1;
    f, x, data, s1 := MakeHandle(fs, a, junk);
    ghost var d1 := fs.disk.sectors;
    var ok, i := fs.Remove(a);
    ghost var d2 := fs.disk.sectors;
    CreatedListing(d0, d1, a, SECTOR_SIZE, x, data, s1);
    OneListed(Listing(d0), Listing(d1), s1, x, a, a, i);
    RemovedListing(d0, d1, d2, a, x, data, s1, i);
    EmptyRoom(d2, b);
    ghost var x3, n3, s3, x4, n4;
    ok, x3, n3, s3 := fs.Create(b, 0, junk);
    ghost var d3 := fs.disk.sectors;
    SecondRoom(d2, d3, b, c, x3, n3, s3);
    ok, x4, n4, slot := fs.Create(c, 0, junk);
    DataBecomesHeader(d0, d1, d2, d3, fs.disk.sectors, a, b, c, x, data, s1, i, x3, n3, s3, x4, n4, slot);
  }

  lemma RemovedListing(d0: Image, d1: Image, d2: Image, a: Name, x: int, data: seq<int>, s1: int, i: int)
    requires Sound(d0) && Created(d0, d1, a, SECTOR_SIZE, x, data, s1) && Removed(d1, d2, a, i)
    requires NoneInUse(Listing(d1)[i := Listing(d1)[i].(inUse := false)])
    ensures NoneInUse(Listing(d2)) && FreeMap(d2) == FreeMap(d0)
  {
    hide Sound, Listing, FreeMap, CopyName, KeepsRest, Describes, Chosen, NoneInUse;
    RemoveUndoesCreate(d0, d1, d2, a, SECTOR_SIZE, x, data, s1, a, i);
  }

  /** Room for a second file besides an empty first one. */
  lemma SecondRoom(d: Image, d': Image, b: Name, c: Name, x: int, data: seq<int>, slot: int)
    requires Sound(d) && Sound(d') && Created(d, d', b, 0, x, data, slot) && NoneInUse(Listing(d)) && Key(b) != Key(c)
    requires CountClear(FreeMap(d)) >= 2
    ensures IsIndex(Listing(d'), c, -1) && HasFreeSlot(Listing(d')) && CountClear(FreeMap(d')) >= 1
  {
    CreatedListing(d, d', b, 0, x, data, slot);
    EmptyCount(d, d', b, x, data, slot);
    hide Sound, Listing, FreeMap, CountClear, Created, CopyName, Key;
    forall i | IsIndex(Listing(d'), c, i) ensures i == -1 {
      OneListed(Listing(d), Listing(d'), slot, x, b, c, i);
    }
    NoIndex(Listing(d'), c);
    OneListed(Listing(d), Listing(d'), slot, x, b, c, -1);
  }

  lemma EmptyCount(d: Image, d': Image, b: Name, x: int, data: seq<int>, slot: int)
    requires Created(d, d', b, 0, x, data, slot)
    ensures CountClear(FreeMap(d')) == CountClear(FreeMap(d)) - 1
  {
    hide Rooted, FreeMap, Listing, KeepsRest, Describes, CountClear, IsFirstClear, SetAll;
    EmptyChosen(FreeMap(d), Listing(d), x, data, slot);
    SetOne(FreeMap(d), x);
    ClearOrNot(FreeMap(d), x);
  }

  /** Format any disk; create `a` of one sector and open it; remove it; create `b` and `c`, empty; write ones through
      the old handle.  Every call succeeds, and the disk is no longer sound: the header of `c` is gone. */
  method WriteThroughStaleHandle(disk: SynchDisk, junk: seq<int>, entries: Table, a: Name, b: Name, c: Name)
    requires |junk| == NUM_DIRECT && forall i :: 0 <= i < NUM_DIRECT ==> IsInt32(junk[i])
    requires Listable(entries) && Key(b) != Key(c)
    modifies disk
    ensures !Sound(disk.sectors)
  {
    hide Sound, Listing, FreeMap, CountClear, FileBytes, ValidHeader, DecodeHeader, Rooted, MapHeader, DirHeader, Key;
    var fs := new FileSystem.Format(disk, junk, entries);
    var f, slot := MakeStale(fs, a, b, c, junk);
    ghost var d := disk.sectors;
    var ones := Filled(Filler());
    assert |f.Contents()| == SECTOR_SIZE;
    SpliceWhole(f.Contents(), ones);
    var n := f.WriteAt(ones, 0);
    OverwrittenHeader(d, disk.sectors, f.hdr, slot);
  }
}
