/** The ownership invariant holds through every run of the file system. */
module FileSystemProofs {
  import opened Base
  import opened Bytes
  import opened DiskImage
  import opened Bitmaps
  import opened FileHeaders
  import opened Directories
  import opened FileSystemSpec

  /** The first two sectors and every listed file survive a change that touches
      only the system files' data and sectors nobody owns. */
  lemma RootsKept(d: Image, d': Image, touched: set<int>)
    requires Rooted(d) && SystemApart(d) && KeepsRest(d, d', touched)
    requires FREE_MAP_SECTOR !in touched && DIRECTORY_SECTOR !in touched
    ensures MapHeader(d') == MapHeader(d) && DirHeader(d') == DirHeader(d)
    ensures Rooted(d') && SystemApart(d') && SystemSectors(d') == SystemSectors(d)
  {
    assert d'[FREE_MAP_SECTOR] == d[FREE_MAP_SECTOR] && d'[DIRECTORY_SECTOR] == d[DIRECTORY_SECTOR];
    hide ValidHeader, DecodeHeader, KeepsRest;
  }

  lemma FileKept(d: Image, d': Image, touched: set<int>, e: Entry)
    requires Rooted(d) && KeepsRest(d, d', touched) && Opens(d, e)
    requires Owned(d, e) !! SystemSectors(d) && e.sector !in touched
    ensures Opens(d', e) && Owned(d', e) == Owned(d, e)
  {
    assert e.sector in Owned(d, e);
    assert e.sector !in SystemSectors(d);
    assert d'[e.sector] == d[e.sector];
    assert HeaderAt(d', e.sector) == HeaderAt(d, e.sector);
    hide ValidHeader;
  }

  /** Every listed file keeps its header and so its sectors. */
  lemma FilesKept(d: Image, d': Image, touched: set<int>)
    requires Sound(d) && KeepsRest(d, d', touched)
    requires forall i :: 0 <= i < NUM_DIR_ENTRIES && Listing(d)[i].inUse ==> Listing(d)[i].sector !in touched
    ensures FilesOpen(d', Listing(d))
    ensures forall i :: 0 <= i < NUM_DIR_ENTRIES && Listing(d)[i].inUse ==>
                          Owned(d', Listing(d)[i]) == Owned(d, Listing(d)[i])
  {
    var t := Listing(d);
    hide Listing, Opens, Owned, Rooted, SystemApart, WellNamed, FreeMap, SystemSectors, KeepsRest;
    forall i | 0 <= i < NUM_DIR_ENTRIES && t[i].inUse
      ensures Opens(d', t[i]) && Owned(d', t[i]) == Owned(d, t[i])
    {
      FileKept(d, d', touched, t[i]);
    }
  }

  // ----- Create -----

  /** The chosen sectors are distinct and were free. */
  lemma ChosenFresh(bits: seq<bool>, t: Table, size: nat, sector: int, data: seq<int>, slot: int)
    requires |bits| == NUM_SECTORS && Chosen(bits, t, size, sector, data, slot)
    ensures Distinct(data) && sector !in data && !bits[sector]
    ensures forall s :: s in data ==> 0 <= s < NUM_SECTORS && !bits[s]
  {
    FirstFitFresh(bits[sector := true], data);
  }

  lemma DescribesValid(h: Header, size: nat, data: seq<int>)
    requires Fits(h) && size <= MAX_FILE_SIZE && |data| == DivRoundUp(size, SECTOR_SIZE) && Describes(h, size, data)
    requires Distinct(data) && forall s :: s in data ==> 0 <= s < NUM_SECTORS
    ensures ValidHeader(h) && Data(h) == data
  {
    forall i | 0 <= i < h.numSectors ensures h.dataSectors[i] == data[i] && data[i] in data {
      assert h.dataSectors[..|data|][i] == data[i];
    }
  }

  /** Adding one file on sectors nobody owned, and marking them, keeps ownership
      exact. */
  lemma AddFile(d: Image, d': Image, t: Table, system: set<int>, bits: seq<bool>, slot: int, e: Entry, new': seq<int>)
    requires FilesOpen(d, t) && FilesApart(d, t, system) && |bits| == NUM_SECTORS
    requires forall s :: 0 <= s < NUM_SECTORS ==> (bits[s] <==> InUse(d, t, system, s))
    requires FilesOpen(d', t)
    requires forall i :: 0 <= i < NUM_DIR_ENTRIES && t[i].inUse ==> Owned(d', t[i]) == Owned(d, t[i])
    requires 0 <= slot < NUM_DIR_ENTRIES && !t[slot].inUse && e.inUse && Opens(d', e)
    requires Owned(d', e) == set s | s in new'
    requires forall s :: s in new' ==> 0 <= s < NUM_SECTORS && !bits[s]
    ensures FilesOpen(d', t[slot := e]) && FilesApart(d', t[slot := e], system)
    ensures forall s :: 0 <= s < NUM_SECTORS ==>
                          (SetAll(bits, new')[s] <==> InUse(d', t[slot := e], system, s))
  {
    hide Opens, Owned;
    var t' := t[slot := e];
    forall i | 0 <= i < NUM_DIR_ENTRIES && t[i].inUse ensures Owned(d', e) !! Owned(d', t[i]) {
      forall s | s in new' ensures s !in Owned(d', t[i]) {
        assert !InUse(d, t, system, s);
      }
    }
    assert Owned(d', e) !! system by {
      forall s | s in new' ensures s !in system {
        assert !InUse(d, t, system, s);
      }
    }
    assert FilesOpen(d', t') && FilesApart(d', t', system);
    forall s | 0 <= s < NUM_SECTORS ensures SetAll(bits, new')[s] <==> InUse(d', t', system, s) {
      if InUse(d, t, system, s) && s !in system {
        var i :| 0 <= i < NUM_DIR_ENTRIES && t[i].inUse && s in Owned(d, t[i]);
        assert t'[i] == t[i];
      }
      if s in new' {
        assert t'[slot] == e;
      }
      if InUse(d', t', system, s) && s !in system && s !in new' {
        var i :| 0 <= i < NUM_DIR_ENTRIES && t'[i].inUse && s in Owned(d', t'[i]);
        assert t'[i] == t[i];
      }
    }
  }

  lemma AddName(t: Table, slot: int, sector: int, name: Name)
    requires WellNamed(t) && IsIndex(t, name, -1) && IsInt32(sector)
    requires 0 <= slot < NUM_DIR_ENTRIES && !t[slot].inUse
    ensures WellNamed(t[slot := Entry(true, sector, CopyName(t[slot].name, name))])
  {
    assert Storable(t[slot]);
    CopiedName(t[slot].name, name);
  }

  /** A free sector is not part of the system and is nobody's header. */
  lemma FreeIsUnowned(d: Image, s: int)
    requires Sound(d) && 0 <= s < NUM_SECTORS && !FreeMap(d)[s]
    ensures s !in SystemSectors(d)
    ensures forall i :: 0 <= i < NUM_DIR_ENTRIES && Listing(d)[i].inUse ==> Listing(d)[i].sector != s
  {
    var t, system := Listing(d), SystemSectors(d);
    assert !InUse(d, t, system, s);
    forall i | 0 <= i < NUM_DIR_ENTRIES && t[i].inUse ensures t[i].sector != s {
      assert t[i].sector in Owned(d, t[i]);
    }
  }

  lemma CreatedFile(d': Image, e: Entry, size: nat, data: seq<int>)
    requires 0 <= e.sector < NUM_SECTORS && size <= MAX_FILE_SIZE && |data| == DivRoundUp(size, SECTOR_SIZE)
    requires Describes(HeaderAt(d', e.sector), size, data)
    requires Distinct(data) && e.sector !in data && forall s :: s in data ==> 0 <= s < NUM_SECTORS
    ensures Opens(d', e) && Owned(d', e) == set s | s in [e.sector] + data
  {
    DescribesValid(HeaderAt(d', e.sector), size, data);
    hide ValidHeader, DecodeHeader;
  }

  /** Create keeps the ownership invariant. */
  lemma CreatedKeeps(d: Image, d': Image, name: Name, size: nat, sector: int, data: seq<int>, slot: int)
    requires Sound(d) && Created(d, d', name, size, sector, data, slot)
    ensures Sound(d')
  {
    hide Opens, Owned, Listing, FreeMap, SystemSectors, Rooted, SystemApart, WellNamed, KeepsRest, Describes, SetAll;
    hide MapHeader, DirHeader, InUse, FilesOpen, FilesApart, IsFirstClear, FirstFit, HeaderAt;
    var t, bits, system := Listing(d), FreeMap(d), SystemSectors(d);
    var e := Entry(true, sector, CopyName(t[slot].name, name));
    ChosenFresh(bits, t, size, sector, data, slot);
    CreatedFile(d', e, size, data);
    FreeIsUnowned(d, sector);
    RootSectors(d);
    RootsKept(d, d', {sector});
    FilesKept(d, d', {sector});
    AddFile(d, d', t, system, bits, slot, e, [sector] + data);
    AddName(t, slot, sector, name);
  }

  lemma RootSectors(d: Image)
    requires Rooted(d)
    ensures FREE_MAP_SECTOR in SystemSectors(d) && DIRECTORY_SECTOR in SystemSectors(d)
  {
  }

  // ----- Remove -----

  /** Dropping one file and clearing its sectors keeps ownership exact. */
  lemma DropFile(d: Image, d': Image, t: Table, system: set<int>, bits: seq<bool>, k: int, gone: seq<int>)
    requires FilesOpen(d, t) && FilesApart(d, t, system) && |bits| == NUM_SECTORS
    requires forall s :: 0 <= s < NUM_SECTORS ==> (bits[s] <==> InUse(d, t, system, s))
    requires FilesOpen(d', t)
    requires forall i :: 0 <= i < NUM_DIR_ENTRIES && t[i].inUse ==> Owned(d', t[i]) == Owned(d, t[i])
    requires 0 <= k < NUM_DIR_ENTRIES && t[k].inUse && Owned(d, t[k]) == set s | s in gone
    ensures var t' := t[k := t[k].(inUse := false)];
            && FilesOpen(d', t') && FilesApart(d', t', system)
            && forall s :: 0 <= s < NUM_SECTORS ==> (ClearAll(bits, gone)[s] <==> InUse(d', t', system, s))
  {
    hide Opens, Owned;
    var t' := t[k := t[k].(inUse := false)];
    assert FilesOpen(d', t') && FilesApart(d', t', system);
    forall s | 0 <= s < NUM_SECTORS ensures ClearAll(bits, gone)[s] <==> InUse(d', t', system, s) {
      if InUse(d, t, system, s) && s !in system && s !in gone {
        var i :| 0 <= i < NUM_DIR_ENTRIES && t[i].inUse && s in Owned(d, t[i]);
        assert t'[i] == t[i];
      }
      if InUse(d', t', system, s) && s !in system {
        var i :| 0 <= i < NUM_DIR_ENTRIES && t'[i].inUse && s in Owned(d', t'[i]);
        assert t'[i] == t[i] && s in Owned(d, t[i]);
        assert s !in Owned(d, t[k]);
      }
    }
  }

  lemma OwnedAsList(d: Image, e: Entry)
    requires Opens(d, e)
    ensures Owned(d, e) == set s | s in OwnedList(d, e)
  {
    hide ValidHeader, DecodeHeader;
  }

  /** Remove keeps the ownership invariant. */
  lemma RemovedKeeps(d: Image, d': Image, name: Name, k: int)
    requires Sound(d) && Removed(d, d', name, k)
    ensures Sound(d')
  {
    hide Opens, Owned, Listing, FreeMap, SystemSectors, Rooted, SystemApart, KeepsRest, ClearAll, OwnedList;
    hide MapHeader, DirHeader, InUse, FilesOpen, FilesApart, HeaderAt;
    var t, bits, system := Listing(d), FreeMap(d), SystemSectors(d);
    OwnedAsList(d, t[k]);
    RootsKept(d, d', {});
    FilesKept(d, d', {});
    DropFile(d, d', t, system, bits, k, OwnedList(d, t[k]));
  }

  // ----- writes through open files -----

  /** A system file does not change when only sectors of a user file do. */
  lemma SystemKept(d: Image, d': Image, changed: set<int>)
    requires Rooted(d) && changed !! SystemSectors(d)
    requires forall s :: 0 <= s < NUM_SECTORS && s !in changed ==> d'[s] == d[s]
    ensures MapHeader(d') == MapHeader(d) && DirHeader(d') == DirHeader(d)
    ensures Rooted(d') && FreeMap(d') == FreeMap(d) && Listing(d') == Listing(d)
    ensures SystemSectors(d') == SystemSectors(d)
  {
    assert d'[FREE_MAP_SECTOR] == d[FREE_MAP_SECTOR] && d'[DIRECTORY_SECTOR] == d[DIRECTORY_SECTOR];
    assert MapHeader(d') == MapHeader(d) && DirHeader(d') == DirHeader(d);
    hide MapHeader, DirHeader, ValidHeader, MapBits, BytesTable, FileBytes;
    assert forall s :: s in Data(MapHeader(d)) ==> s in SystemSectors(d);
    assert forall s :: s in Data(DirHeader(d)) ==> s in SystemSectors(d);
    SectorRange(MapHeader(d));
    SectorRange(DirHeader(d));
    FileFrame(d, d', MapHeader(d));
    FileFrame(d, d', DirHeader(d));
  }

  lemma SectorRange(h: Header)
    requires ValidHeader(h)
    ensures forall s :: s in Data(h) ==> 0 <= s < NUM_SECTORS
  {
  }

  /** A file is where its header sector says it is. */
  lemma SameHeader(d: Image, d': Image, e: Entry)
    requires Opens(d, e) && d'[e.sector] == d[e.sector]
    ensures Opens(d', e) && Owned(d', e) == Owned(d, e) && HeaderAt(d', e.sector) == HeaderAt(d, e.sector)
  {
    assert HeaderAt(d', e.sector) == HeaderAt(d, e.sector);
    hide ValidHeader, DecodeHeader;
  }

  lemma WroteKeepsFiles(d: Image, d': Image, h: Header)
    requires Sound(d) && Wrote(d, d', h) && Harmless(d, h)
    ensures FilesOpen(d', Listing(d)) && FilesApart(d', Listing(d), SystemSectors(d))
    ensures forall s :: InUse(d', Listing(d), SystemSectors(d), s) <==> InUse(d, Listing(d), SystemSectors(d), s)
  {
    var (t, system) := (Listing(d), SystemSectors(d));
    hide Listing, FreeMap, SystemSectors, Rooted, SystemApart, WellNamed, Opens, Owned, ValidHeader;
    forall i | 0 <= i < NUM_DIR_ENTRIES && t[i].inUse
      ensures Opens(d', t[i]) && Owned(d', t[i]) == Owned(d, t[i])
    {
      HeaderInRange(d, t[i]);
      SameHeader(d, d', t[i]);
    }
    SameFiles(d, d', t, system);
  }

  lemma HeaderInRange(d: Image, e: Entry)
    requires Opens(d, e)
    ensures 0 <= e.sector < NUM_SECTORS
  {
  }

  /** The same owned sectors are as much apart, and as much in use. */
  lemma SameFiles(d: Image, d': Image, t: Table, system: set<int>)
    requires FilesOpen(d, t) && FilesApart(d, t, system) && FilesOpen(d', t)
    requires forall i :: 0 <= i < NUM_DIR_ENTRIES && t[i].inUse ==> Owned(d', t[i]) == Owned(d, t[i])
    ensures FilesApart(d', t, system)
    ensures forall s :: InUse(d', t, system, s) <==> InUse(d, t, system, s)
  {
    hide Opens, Owned;
  }

  /** Writing through a harmless handle keeps the ownership invariant. */
  lemma WroteKeeps(d: Image, d': Image, h: Header)
    requires Sound(d) && Wrote(d, d', h) && Harmless(d, h)
    ensures Sound(d')
  {
    WroteKeepsFiles(d, d', h);
    hide Owned, Listing, FreeMap, SystemSectors, WellNamed, InUse, FilesOpen, FilesApart, ValidHeader;
    SystemKept(d, d', set s | s in Data(h));
  }

  // ----- whole runs -----

  /** One call of the file system, with what a successful one chose. */
  datatype Action =
    | DidCreate(name: Name, size: nat, sector: int, data: seq<int>, slot: int)
    | DidRemove(name: Name, entry: int)
    | DidWrite(handle: Header)  // through any handle, old or new
    | DidFail  // a refused Create or Remove changes nothing

  ghost predicate Happens(d: Image, a: Action, d': Image) {
    match a
    case DidCreate(name, size, sector, data, slot) => Created(d, d', name, size, sector, data, slot)
    case DidRemove(name, i) => Removed(d, d', name, i)
    case DidWrite(h) => Rooted(d) && Wrote(d, d', h) && Harmless(d, h)
    case DidFail => d' == d
  }

  /** After formatting and after every later run of calls, no sector leaks and none
      is shared. */
  lemma {:induction false} RunKeeps(disks: seq<Image>, run: seq<Action>)
    requires |disks| == |run| + 1 && Sound(disks[0])
    requires forall i :: 0 <= i < |run| ==> Happens(disks[i], run[i], disks[i + 1])
    ensures Sound(disks[|run|])
  {
    hide Sound, Created, Removed, Wrote;
    if run == [] {
    } else {
      var n := |run| - 1;
      forall i | 0 <= i < n ensures Happens(disks[..n + 1][i], run[..n][i], disks[..n + 1][i + 1]) {
        assert Happens(disks[i], run[i], disks[i + 1]);
      }
      RunKeeps(disks[..n + 1], run[..n]);
      assert Happens(disks[n], run[n], disks[n + 1]);
      match run[n]
      case DidCreate(name, size, sector, data, slot) =>
        CreatedKeeps(disks[n], disks[n + 1], name, size, sector, data, slot);
      case DidRemove(name, i) => RemovedKeeps(disks[n], disks[n + 1], name, i);
      case DidWrite(h) => WroteKeeps(disks[n], disks[n + 1], h);
      case DidFail =>
    }
  }

  // ----- Remove undoes Create -----

  lemma OnlySlot(t: Table, t': Table, name: Name, slot: int, sector: int, name': Name, i: int)
    requires WellNamed(t) && WellNamed(t') && IsIndex(t, name, -1) && IsFreeSlot(t, slot) && slot >= 0
    requires t' == t[slot := Entry(true, sector, CopyName(t[slot].name, name))]
    requires Key(name') == Key(name) && i >= 0 && IsIndex(t', name', i)
    ensures i == slot && Names(t'[i := t'[i].(inUse := false)]) == Names(t)
  {
    assert Storable(t[slot]);
    CopiedName(t[slot].name, name);
    assert KeyOf(t'[slot]) == Key(name);
    assert i == slot;
    var t'' := t'[i := t'[i].(inUse := false)];
    forall p | p in Names(t) ensures p in Names(t'') {
      var j :| 0 <= j < NUM_DIR_ENTRIES && t[j].inUse && p == (KeyOf(t[j]), t[j].sector);
      assert t''[j] == t[j];
    }
    forall p | p in Names(t'') ensures p in Names(t) {
      var j :| 0 <= j < NUM_DIR_ENTRIES && t''[j].inUse && p == (KeyOf(t''[j]), t''[j].sector);
      assert t''[j] == t[j];
    }
  }

  /** Create followed by Remove under a name with the same nine-character key gives
      back the free map and the directory. */
  lemma RemoveUndoesCreate(d: Image, d': Image, d'': Image, name: Name, size: nat, sector: int, data: seq<int>,
                           slot: int, name': Name, i: int)
    requires Sound(d) && Created(d, d', name, size, sector, data, slot)
    requires Key(name') == Key(name) && Removed(d', d'', name', i)
    ensures FreeMap(d'') == FreeMap(d)
    ensures Names(Listing(d'')) == Names(Listing(d))
  {
    hide Rooted, SystemApart, FilesOpen, FilesApart, InUse, SystemSectors, Listing, FreeMap, KeepsRest, HeaderAt;
    hide IsFirstClear, FirstFit, SetAll, ClearAll, WellNamed, Names, IsIndex, IsFreeSlot, Opens, Owned, OwnedList, Key;
    CreatedKeeps(d, d', name, size, sector, data, slot);
    OnlySlot(Listing(d), Listing(d'), name, slot, sector, name', i);
    ChosenFresh(FreeMap(d), Listing(d), size, sector, data, slot);
    DescribesOwned(d', Listing(d')[slot], size, data);
    ClearUndoesSet(FreeMap(d), [sector] + data);
  }

  lemma DescribesOwned(d: Image, e: Entry, size: nat, data: seq<int>)
    requires Opens(d, e) && Describes(HeaderAt(d, e.sector), size, data)
    ensures OwnedList(d, e) == [e.sector] + data
  {
    hide ValidHeader, DecodeHeader;
  }

  // ----- nothing else is touched -----

  lemma OwnedRange(d: Image, e: Entry)
    requires Opens(d, e)
    ensures e.sector in Owned(d, e)
    ensures forall s :: s in Owned(d, e) ==> 0 <= s < NUM_SECTORS
    ensures forall s :: s in Data(HeaderAt(d, e.sector)) ==> s in Owned(d, e)
  {
    hide DecodeHeader;
    SectorRange(HeaderAt(d, e.sector));
  }

  lemma OwnedKept(d: Image, d': Image, touched: set<int>, e: Entry)
    requires Rooted(d) && KeepsRest(d, d', touched) && Opens(d, e)
    requires Owned(d, e) !! SystemSectors(d) && Owned(d, e) !! touched
    ensures forall s :: s in Owned(d, e) ==> 0 <= s < NUM_SECTORS && d'[s] == d[s]
  {
    hide DecodeHeader, ValidHeader, Owned;
    OwnedRange(d, e);
  }

  /** A file outside the sectors an operation touches keeps its contents. */
  lemma OthersKept(d: Image, d': Image, touched: set<int>, e: Entry)
    requires Rooted(d) && KeepsRest(d, d', touched) && Opens(d, e)
    requires Owned(d, e) !! SystemSectors(d) && Owned(d, e) !! touched
    ensures Opens(d', e)
    ensures FileBytes(d', HeaderAt(d', e.sector)) == FileBytes(d, HeaderAt(d, e.sector))
  {
    hide FileBytes, ValidHeader, DecodeHeader, KeepsRest, SystemSectors, Owned;
    OwnedKept(d, d', touched, e);
    OwnedRange(d, e);
    SameHeader(d, d', e);
    FileFrame(d, d', HeaderAt(d, e.sector));
  }

  lemma OwnedApart(d: Image, i: int)
    requires Sound(d) && 0 <= i < NUM_DIR_ENTRIES && Listing(d)[i].inUse
    ensures Opens(d, Listing(d)[i]) && Owned(d, Listing(d)[i]) !! SystemSectors(d)
  {
  }

  lemma FreeIsNotOwned(d: Image, s: int, i: int)
    requires Sound(d) && 0 <= s < NUM_SECTORS && !FreeMap(d)[s] && 0 <= i < NUM_DIR_ENTRIES && Listing(d)[i].inUse
    ensures Opens(d, Listing(d)[i]) && s !in Owned(d, Listing(d)[i])
  {
    var (t, system) := (Listing(d), SystemSectors(d));
    hide Listing, FreeMap, SystemSectors, Rooted, SystemApart, WellNamed, FilesApart, Opens, Owned;
    assert !InUse(d, t, system, s);
  }

  /** Create leaves the contents of every listed file alone. */
  lemma CreatedKeepsOthers(d: Image, d': Image, name: Name, size: nat, sector: int, data: seq<int>, slot: int, j: int)
    requires Sound(d) && Created(d, d', name, size, sector, data, slot)
    requires 0 <= j < NUM_DIR_ENTRIES && Listing(d)[j].inUse
    ensures var e := Listing(d)[j];
      && Listing(d')[j] == e && Opens(d, e) && Opens(d', e)
      && HeaderAt(d', e.sector) == HeaderAt(d, e.sector)
      && FileBytes(d', HeaderAt(d', e.sector)) == FileBytes(d, HeaderAt(d, e.sector))
  {
    OwnedApart(d, j);
    assert !FreeMap(d)[sector] && slot != j;
    FreeIsNotOwned(d, sector, j);
    var e := Listing(d)[j];
    hide Sound, Listing, FreeMap, FileBytes, ValidHeader, DecodeHeader, Owned, SystemSectors, Chosen, Describes, Rooted;
    OthersKept(d, d', {sector}, e);
    HeaderKept(d, d', {sector}, e);
  }

  /** Remove leaves the contents of every other listed file alone. */
  lemma RemovedKeepsOthers(d: Image, d': Image, name: Name, i: int, j: int)
    requires Sound(d) && Removed(d, d', name, i)
    requires 0 <= j < NUM_DIR_ENTRIES && j != i && Listing(d)[j].inUse
    ensures var e := Listing(d)[j];
      && Listing(d')[j] == e && Opens(d, e) && Opens(d', e)
      && HeaderAt(d', e.sector) == HeaderAt(d, e.sector)
      && FileBytes(d', HeaderAt(d', e.sector)) == FileBytes(d, HeaderAt(d, e.sector))
  {
    OwnedApart(d, j);
    var e := Listing(d)[j];
    hide Sound, Listing, FreeMap, FileBytes, ValidHeader, DecodeHeader, Owned, SystemSectors, Rooted;
    OthersKept(d, d', {}, e);
    HeaderKept(d, d', {}, e);
  }

  lemma HeaderKept(d: Image, d': Image, touched: set<int>, e: Entry)
    requires Rooted(d) && KeepsRest(d, d', touched) && Opens(d, e)
    requires Owned(d, e) !! SystemSectors(d) && Owned(d, e) !! touched
    ensures HeaderAt(d', e.sector) == HeaderAt(d, e.sector)
  {
    hide ValidHeader, DecodeHeader, KeepsRest, SystemSectors, Owned;
    OwnedKept(d, d', touched, e);
    OwnedRange(d, e);
  }

  /** A freshly formatted disk: nothing listed, only the system's sectors marked. */
  lemma FormattedSound(d: Image)
    requires Rooted(d) && SystemApart(d)
    requires forall i :: 0 <= i < NUM_DIR_ENTRIES ==> !Listing(d)[i].inUse
    requires forall s :: 0 <= s < NUM_SECTORS ==> (FreeMap(d)[s] <==> s in SystemSectors(d))
    ensures Sound(d)
  {
  }

  // ----- from the individual disk writes to the whole operation -----

  /** Writing the directory file and then the free map file. */
  lemma StoreBoth(d: Image, d1: Image, d2: Image, t: Table, bits: seq<bool>)
    requires Rooted(d) && SystemApart(d)
    requires BytesTable(FileBytes(d1, DirHeader(d))) == t
    requires forall s :: 0 <= s < NUM_SECTORS && s !in Data(DirHeader(d)) ==> d1[s] == d[s]
    requires MapBits(FileBytes(d2, MapHeader(d))) == bits
    requires forall s :: 0 <= s < NUM_SECTORS && s !in Data(MapHeader(d)) ==> d2[s] == d1[s]
    ensures Rooted(d2) && MapHeader(d2) == MapHeader(d) && DirHeader(d2) == DirHeader(d)
    ensures FreeMap(d2) == bits && Listing(d2) == t
    ensures KeepsRest(d, d2, {})
  {
    hide MapBits, BytesTable, FileBytes, ValidHeader;
    assert d2[FREE_MAP_SECTOR] == d[FREE_MAP_SECTOR] && d2[DIRECTORY_SECTOR] == d[DIRECTORY_SECTOR];
    SectorRange(DirHeader(d));
    FileFrame(d1, d2, DirHeader(d));
  }

  /** The same two writes in the order Remove uses. */
  lemma StoreBothBack(d: Image, d1: Image, d2: Image, t: Table, bits: seq<bool>)
    requires Rooted(d) && SystemApart(d)
    requires MapBits(FileBytes(d1, MapHeader(d))) == bits
    requires forall s :: 0 <= s < NUM_SECTORS && s !in Data(MapHeader(d)) ==> d1[s] == d[s]
    requires BytesTable(FileBytes(d2, DirHeader(d))) == t
    requires forall s :: 0 <= s < NUM_SECTORS && s !in Data(DirHeader(d)) ==> d2[s] == d1[s]
    ensures Rooted(d2) && MapHeader(d2) == MapHeader(d) && DirHeader(d2) == DirHeader(d)
    ensures FreeMap(d2) == bits && Listing(d2) == t
    ensures KeepsRest(d, d2, {})
  {
    hide MapBits, BytesTable, FileBytes, ValidHeader;
    assert d2[FREE_MAP_SECTOR] == d[FREE_MAP_SECTOR] && d2[DIRECTORY_SECTOR] == d[DIRECTORY_SECTOR];
    SectorRange(MapHeader(d));
    FileFrame(d1, d2, MapHeader(d));
  }

  /** Writing a header into a free sector changes nothing the system relies on. */
  lemma StoreHeader(d: Image, sector: int, h: Header)
    requires Sound(d) && 0 <= sector < NUM_SECTORS && !FreeMap(d)[sector] && Fits(h)
    ensures var d1: Image := d[sector := EncodeHeader(h)];
            && Rooted(d1) && SystemApart(d1) && MapHeader(d1) == MapHeader(d) && DirHeader(d1) == DirHeader(d)
            && HeaderAt(d1, sector) == h && sector !in SystemSectors(d)
  {
    hide ValidHeader, EncodeHeader, FreeMap, Listing, WellNamed, FilesOpen, FilesApart, InUse, SystemSectors;
    hide DecodeHeader, MapHeader, DirHeader, Rooted, SystemApart, Fits;
    FreeIsUnowned(d, sector);
    RootSectors(d);
    HeaderRoundTrip(h);
    RootsKept(d, d[sector := EncodeHeader(h)], {sector});
  }

  /** Header, directory and free map written one after the other make a Create. */
  lemma CreateWrites(d: Image, h: Header, d2: Image, d3: Image, name: Name, size: nat, sector: int, data: seq<int>,
                     slot: int, t: Table, bits: seq<bool>)
    requires Sound(d) && Fits(h) && size <= MAX_FILE_SIZE && IsIndex(Listing(d), name, -1)
    requires Chosen(FreeMap(d), Listing(d), size, sector, data, slot) && Describes(h, size, data)
    requires bits == SetAll(FreeMap(d), [sector] + data)
    requires t == Listing(d)[slot := Entry(true, sector, CopyName(Listing(d)[slot].name, name))]
    requires BytesTable(FileBytes(d2, DirHeader(d))) == t
    requires forall s :: 0 <= s < NUM_SECTORS && s !in Data(DirHeader(d)) ==> d2[s] == d[sector := EncodeHeader(h)][s]
    requires MapBits(FileBytes(d3, MapHeader(d))) == bits
    requires forall s :: 0 <= s < NUM_SECTORS && s !in Data(MapHeader(d)) ==> d3[s] == d2[s]
    ensures Created(d, d3, name, size, sector, data, slot)
    ensures MapHeader(d3) == MapHeader(d) && DirHeader(d3) == DirHeader(d)
  {
    hide FreeMap, Listing, WellNamed, FilesOpen, FilesApart, InUse, MapBits, BytesTable, FileBytes, ValidHeader;
    hide IsFirstClear, FirstFit, SetAll, IsIndex, IsFreeSlot, CopyName, EncodeHeader, DecodeHeader;
    ChosenFresh(FreeMap(d), Listing(d), size, sector, data, slot);
    StoreHeader(d, sector, h);
    StoreBoth(d[sector := EncodeHeader(h)], d2, d3, t, bits);
  }

  /** Free map and directory written back make a Remove. */
  lemma RemoveWrites(d: Image, d1: Image, d2: Image, name: Name, i: int, t: Table, bits: seq<bool>)
    requires Sound(d) && 0 <= i < NUM_DIR_ENTRIES && IsIndex(Listing(d), name, i) && Opens(d, Listing(d)[i])
    requires bits == ClearAll(FreeMap(d), OwnedList(d, Listing(d)[i]))
    requires t == Listing(d)[i := Listing(d)[i].(inUse := false)]
    requires MapBits(FileBytes(d1, MapHeader(d))) == bits
    requires forall s :: 0 <= s < NUM_SECTORS && s !in Data(MapHeader(d)) ==> d1[s] == d[s]
    requires BytesTable(FileBytes(d2, DirHeader(d))) == t
    requires forall s :: 0 <= s < NUM_SECTORS && s !in Data(DirHeader(d)) ==> d2[s] == d1[s]
    ensures Removed(d, d2, name, i)
    ensures MapHeader(d2) == MapHeader(d) && DirHeader(d2) == DirHeader(d)
  {
    hide FreeMap, Listing, WellNamed, FilesOpen, FilesApart, InUse, MapBits, BytesTable, FileBytes, ValidHeader;
    hide ClearAll, IsIndex, Opens, OwnedList, DecodeHeader;
    StoreBothBack(d, d1, d2, t, bits);
  }

  // ----- what the operations look up -----

  ghost predicate HasFreeSlot(t: Table) {
    exists i :: 0 <= i < NUM_DIR_ENTRIES && !t[i].inUse
  }

  lemma Lookups(d: Image)
    requires Rooted(d)
    ensures Listing(d) == BytesTable(FileBytes(d, DirHeader(d)))
    ensures FreeMap(d) == MapBits(FileBytes(d, MapHeader(d)))
  {
  }

  /** Find returns -1 exactly when the name is not listed. */
  lemma FoundOrNot(d: Image, name: Name, i: int)
    requires Sound(d) && IsIndex(Listing(d), name, i)
    ensures i >= 0 ==> !IsIndex(Listing(d), name, -1)
    ensures i >= 0 ==> Opens(d, Listing(d)[i]) && Listing(d)[i].sector >= 0
  {
    hide FreeMap, SystemApart, FilesApart, InUse, ValidHeader, DecodeHeader, MapBits, BytesTable, FileBytes;
  }

  lemma SlotOrNot(t: Table, slot: int)
    requires IsFreeSlot(t, slot)
    ensures HasFreeSlot(t) <==> slot >= 0
  {
  }

  lemma ClearOrNot(bits: seq<bool>, s: int)
    requires IsFirstClear(bits, s)
    ensures s == -1 <==> CountClear(bits) == 0
    ensures s >= 0 ==> CountClear(bits[s := true]) == CountClear(bits) - 1
  {
    if s == -1 {
      NoneClear(bits);
    } else {
      CountAfterSet(bits, s);
    }
  }

  lemma MakesChoice(bits: seq<bool>, t: Table, h: Header, size: nat, sector: int, data: seq<int>, slot: int)
    requires |bits| == NUM_SECTORS && 0 <= sector < NUM_SECTORS && IsFirstClear(bits, sector)
    requires |data| == DivRoundUp(size, SECTOR_SIZE) && FirstFit(bits[sector := true], data)
    requires 0 <= slot < NUM_DIR_ENTRIES && IsFreeSlot(t, slot)
    requires h.numBytes == size && h.numSectors == |data| <= |h.dataSectors| && h.dataSectors[..|data|] == data
    ensures Chosen(bits, t, size, sector, data, slot) && Describes(h, size, data)
  {
  }

  lemma SetBoth(bits: seq<bool>, s: int, data: seq<int>)
    requires 0 <= s < |bits|
    ensures SetAll(bits[s := true], data) == SetAll(bits, [s] + data)
  {
  }

  lemma ClearBoth(bits: seq<bool>, s: int, data: seq<int>)
    requires 0 <= s < |bits|
    ensures ClearAll(bits, data)[s := false] == ClearAll(bits, [s] + data)
  {
  }

  /** Every sector of a listed file is marked. */
  lemma OwnedIsMarked(d: Image, i: int)
    requires Sound(d) && 0 <= i < NUM_DIR_ENTRIES && Listing(d)[i].inUse
    ensures Opens(d, Listing(d)[i])
    ensures forall s :: s in OwnedList(d, Listing(d)[i]) ==> 0 <= s < NUM_SECTORS && FreeMap(d)[s]
  {
    hide FreeMap, Listing, SystemApart, FilesApart, ValidHeader, DecodeHeader, WellNamed, SystemSectors, Owned,
        OwnedList;
    var e := Listing(d)[i];
    OwnedRange(d, e);
    OwnedAsList(d, e);
    forall s | s in OwnedList(d, e) ensures 0 <= s < NUM_SECTORS && FreeMap(d)[s] {
      assert s in Owned(d, e);
      assert InUse(d, Listing(d), SystemSectors(d), s);
    }
  }

  // ----- formatting -----

  lemma {:induction false} AllClear(bits: seq<bool>)
    requires forall i :: 0 <= i < |bits| ==> !bits[i]
    ensures CountClear(bits) == |bits|
  {
    if bits == [] {
    } else {
      AllClear(bits[..|bits| - 1]);
    }
  }

  /** The two headers written to their well-known sectors. */
  lemma HeadersWritten(d: Image, mh: Header, dh: Header)
    requires ValidHeader(mh) && mh.numBytes == FREE_MAP_FILE_SIZE && ValidHeader(dh)
        && dh.numBytes == DIRECTORY_FILE_SIZE
    requires FREE_MAP_SECTOR !in Data(mh) && DIRECTORY_SECTOR !in Data(mh)
    requires FREE_MAP_SECTOR !in Data(dh) && DIRECTORY_SECTOR !in Data(dh)
    requires forall s :: s in Data(mh) ==> s !in Data(dh)
    requires d[FREE_MAP_SECTOR] == EncodeHeader(mh) && d[DIRECTORY_SECTOR] == EncodeHeader(dh)
    ensures Rooted(d) && SystemApart(d) && MapHeader(d) == mh && DirHeader(d) == dh
  {
    assert MapHeader(d) == mh by { HeaderRoundTrip(mh); hide ValidHeader, EncodeHeader; }
    assert DirHeader(d) == dh by { HeaderRoundTrip(dh); hide ValidHeader, EncodeHeader; }
    hide MapHeader, DirHeader, EncodeHeader, ValidHeader;
  }

  lemma SystemList(d: Image, s: int)
    requires Rooted(d)
    ensures s in SystemSectors(d) <==>
              s == FREE_MAP_SECTOR || s == DIRECTORY_SECTOR || s in Data(MapHeader(d)) || s in Data(DirHeader(d))
  {
    hide ValidHeader, DecodeHeader;
  }

  /** The map marks the sectors of the two system files and no others. */
  ghost predicate Accounts(d: Image, bits: seq<bool>)
    requires Rooted(d)
  {
    && |bits| == NUM_SECTORS
    && forall s :: 0 <= s < NUM_SECTORS ==>
                     (bits[s] <==> s == FREE_MAP_SECTOR || s == DIRECTORY_SECTOR
                                   || s in Data(MapHeader(d)) || s in Data(DirHeader(d)))
  }

  /** Headers, free map and empty directory make a sound disk. */
  lemma FormatWrites(d2: Image, d3: Image, d4: Image, t: Table, bits: seq<bool>)
    requires Rooted(d2) && SystemApart(d2) && Accounts(d2, bits)
    requires forall i :: 0 <= i < NUM_DIR_ENTRIES ==> !t[i].inUse
    requires MapBits(FileBytes(d3, MapHeader(d2))) == bits
    requires forall s :: 0 <= s < NUM_SECTORS && s !in Data(MapHeader(d2)) ==> d3[s] == d2[s]
    requires BytesTable(FileBytes(d4, DirHeader(d2))) == t
    requires forall s :: 0 <= s < NUM_SECTORS && s !in Data(DirHeader(d2)) ==> d4[s] == d3[s]
    ensures Sound(d4) && MapHeader(d4) == MapHeader(d2) && DirHeader(d4) == DirHeader(d2)
    ensures FreeMap(d4) == bits && Listing(d4) == t
  {
    hide MapBits, BytesTable, FileBytes, ValidHeader, FreeMap, Listing, DecodeHeader, Sound, SystemSectors;
    StoreBothBack(d2, d3, d4, t, bits);
    RootsKept(d2, d4, {});
    forall s | 0 <= s < NUM_SECTORS ensures FreeMap(d4)[s] <==> s in SystemSectors(d4) {
      SystemList(d4, s);
    }
    FormattedSound(d4);
  }
}
