/** The file system object (filesys/filesys.cc): every operation fetches the
    directory and the free map from their files on the disk, changes its copies and
    writes them back. */
module FileSystems {
  import opened Base
  import opened Bytes
  import opened DiskImage
  import opened Bitmaps
  import opened OpenFiles
  import opened FileHeaders
  import opened Directories
  import opened FileSystemSpec
  import opened FileSystemProofs

  // ----- the free map and the directory as files -----

  /** PersistentBitmap's constructor from a file. */
  method FetchMap(file: OpenFile) returns (m: Bitmap)
    requires file.Valid() && file.hdr.numBytes == FREE_MAP_FILE_SIZE
    ensures m.Valid() && m.numBits == NUM_SECTORS && fresh(m) && fresh(m.words)
    ensures m.Bits() == MapBits(file.Contents())
  {
    m := new Bitmap(NUM_SECTORS);
    var raw := new byte[FREE_MAP_FILE_SIZE];
    var n := file.ReadAt(raw, 0, FREE_MAP_FILE_SIZE, 0);
    assert raw[..] == file.Contents();
    var words := UnpackWords(raw[..]);
    forall i | 0 <= i < m.words.Length {
      m.words[i] := words[i];
    }
    assert m.words[..] == words;
  }

  /** PersistentBitmap::WriteBack. */
  method StoreMap(m: Bitmap, file: OpenFile)
    requires m.Valid() && m.numBits == NUM_SECTORS && file.Valid() && file.hdr.numBytes == FREE_MAP_FILE_SIZE
    modifies file.disk
    ensures MapBits(file.Contents()) == m.Bits()
    ensures forall s :: 0 <= s < NUM_SECTORS && s !in Data(file.hdr) ==>
                          file.disk.sectors[s] == old(file.disk.sectors)[s]
  {
    hide FileBytes, ValidHeader, Splice, MapBits, PackWords, BitsOf;
    var data := PackWords(m.words[..]);
    MapStored(m.words[..]);
    SpliceWhole(file.Contents(), data);
    var n := file.WriteAt(data, 0);
  }

  lemma MapStored(words: seq<bv32>)
    requires |words| * BITS_IN_WORD == NUM_SECTORS
    ensures |PackWords(words)| == FREE_MAP_FILE_SIZE && MapBits(PackWords(words)) == BitsOf(words, NUM_SECTORS)
  {
    hide PackWords, UnpackWords, BitsOf;
    WordsRoundTrip(words);
  }

  lemma SpliceWhole(f: seq<byte>, data: seq<byte>)
    requires |f| == |data|
    ensures Splice(f, 0, data) == data
  {
  }

  /** Directory::FetchFrom. */
  method FetchDirectory(file: OpenFile) returns (dir: Directory)
    requires file.Valid() && file.hdr.numBytes == DIRECTORY_FILE_SIZE && WellNamed(BytesTable(file.Contents()))
    ensures dir.Valid() && fresh(dir) && fresh(dir.table)
    ensures dir.Value() == BytesTable(file.Contents())
  {
    var raw := new byte[DIRECTORY_FILE_SIZE];
    var n := file.ReadAt(raw, 0, DIRECTORY_FILE_SIZE, 0);
    assert raw[..] == file.Contents();
    var t := BytesTable(raw[..]);
    dir := new Directory(t);
    forall i | 0 <= i < NUM_DIR_ENTRIES {
      dir.table[i] := t[i];
    }
    assert dir.table[..] == t;
  }

  /** Directory::WriteBack. */
  method StoreDirectory(dir: Directory, file: OpenFile)
    requires dir.Valid() && file.Valid() && file.hdr.numBytes == DIRECTORY_FILE_SIZE
    modifies file.disk
    ensures BytesTable(file.Contents()) == dir.Value()
    ensures forall s :: 0 <= s < NUM_SECTORS && s !in Data(file.hdr) ==>
                          file.disk.sectors[s] == old(file.disk.sectors)[s]
  {
    var data := TableBytes(dir.table[..]);
    TableRoundTrip(dir.table[..]);
    var n := file.WriteAt(data, 0);
    assert file.Contents() == data;
  }

  // ----- laying out a new disk -----

  /** The headers of the two system files and the map that accounts for them. */
  ghost predicate LaidOut(mh: Header, dh: Header, bits: seq<bool>) {
    && ValidHeader(mh) && mh.numBytes == FREE_MAP_FILE_SIZE && ValidHeader(dh) && dh.numBytes == DIRECTORY_FILE_SIZE
    && |bits| == NUM_SECTORS
    && FREE_MAP_SECTOR !in Data(mh) && DIRECTORY_SECTOR !in Data(mh)
    && FREE_MAP_SECTOR !in Data(dh) && DIRECTORY_SECTOR !in Data(dh)
    && (forall s :: s in Data(mh) ==> s !in Data(dh))
    && (forall s :: 0 <= s < NUM_SECTORS ==>
                      (bits[s] <==> s == FREE_MAP_SECTOR || s == DIRECTORY_SECTOR || s in Data(mh) || s in Data(dh)))
  }

  lemma LaidOutHeaders(d: Image, mh: Header, dh: Header, bits: seq<bool>)
    requires LaidOut(mh, dh, bits)
    ensures var d2: Image := d[FREE_MAP_SECTOR := EncodeHeader(mh)][DIRECTORY_SECTOR := EncodeHeader(dh)];
            && Rooted(d2) && SystemApart(d2) && MapHeader(d2) == mh && DirHeader(d2) == dh && Accounts(d2, bits)
  {
    hide EncodeHeader, DecodeHeader, SystemApart, Distinct;
    HeadersWritten(d[FREE_MAP_SECTOR := EncodeHeader(mh)][DIRECTORY_SECTOR := EncodeHeader(dh)], mh, dh);
  }

  lemma LayoutDone(empty: seq<bool>, mh: Header, dh: Header)
    requires |empty| == NUM_SECTORS && forall i :: 0 <= i < NUM_SECTORS ==> !empty[i]
    requires Fits(mh) && mh.numBytes == FREE_MAP_FILE_SIZE && mh.numSectors == 1
    requires Fits(dh) && dh.numBytes == DIRECTORY_FILE_SIZE && dh.numSectors == 2
    requires var roots := empty[FREE_MAP_SECTOR := true][DIRECTORY_SECTOR := true];
             FirstFit(roots, Data(mh)) && FirstFit(SetAll(roots, Data(mh)), Data(dh))
    ensures var roots := empty[FREE_MAP_SECTOR := true][DIRECTORY_SECTOR := true];
            var bits := SetAll(SetAll(roots, Data(mh)), Data(dh));
            LaidOut(mh, dh, bits) && CountClear(bits) == NUM_SECTORS - 5
  {
    var roots := empty[FREE_MAP_SECTOR := true][DIRECTORY_SECTOR := true];
    FirstFitFresh(roots, Data(mh));
    FirstFitFresh(SetAll(roots, Data(mh)), Data(dh));
    DescribesValid(mh, FREE_MAP_FILE_SIZE, Data(mh));
    DescribesValid(dh, DIRECTORY_FILE_SIZE, Data(dh));
    SetTwice(roots, Data(mh), Data(dh));
    AllClear(empty);
    CountAfterSet(empty, FREE_MAP_SECTOR);
    CountAfterSet(empty[FREE_MAP_SECTOR := true], DIRECTORY_SECTOR);
    CountAfterFit(roots, Data(mh));
    CountAfterFit(SetAll(roots, Data(mh)), Data(dh));
    hide FirstFit, SetAll, ValidHeader, CountClear;
  }

  /** The part of formatting that allocates: sectors 0 and 1, then the contents of
      the two files.  Neither allocation can fail. */
  method Layout(freeMap: Bitmap, junk: seq<int>) returns (mapHdr: FileHeader, dirHdr: FileHeader)
    requires freeMap.Valid() && freeMap.numBits == NUM_SECTORS
    requires forall i :: 0 <= i < NUM_SECTORS ==> !freeMap.Bits()[i]
    requires |junk| == NUM_DIRECT && forall i :: 0 <= i < NUM_DIRECT ==> IsInt32(junk[i])
    modifies freeMap.words
    ensures fresh(mapHdr) && fresh(mapHdr.dataSectors) && mapHdr.Valid() && Fits(mapHdr.Value())
    ensures fresh(dirHdr) && fresh(dirHdr.dataSectors) && dirHdr.Valid() && Fits(dirHdr.Value())
    ensures mapHdr != dirHdr && mapHdr.dataSectors != dirHdr.dataSectors
    ensures LaidOut(mapHdr.Value(), dirHdr.Value(), freeMap.Bits())
    ensures CountClear(freeMap.Bits()) == NUM_SECTORS - 5
  {
    hide FirstFit, SetAll, CountClear, LaidOut;
    ghost var empty := freeMap.Bits();
    freeMap.Mark(FREE_MAP_SECTOR);
    freeMap.Mark(DIRECTORY_SECTOR);
    ghost var roots := freeMap.Bits();
    AllClear(empty);
    CountAfterSet(empty, FREE_MAP_SECTOR);
    CountAfterSet(empty[FREE_MAP_SECTOR := true], DIRECTORY_SECTOR);
    mapHdr := new FileHeader(junk);
    dirHdr := new FileHeader(junk);
    var ok := mapHdr.Allocate(freeMap, FREE_MAP_FILE_SIZE);
    assert ok;
    CountAfterFit(roots, Data(mapHdr.Value()));
    ok := dirHdr.Allocate(freeMap, DIRECTORY_FILE_SIZE);
    assert ok;
    LayoutDone(empty, mapHdr.Value(), dirHdr.Value());
  }

  class FileSystem {
    const disk: SynchDisk
    const freeMapFile: OpenFile
    const directoryFile: OpenFile

    ghost predicate Valid()
      reads disk
    {
      && Sound(disk.sectors)
      && freeMapFile.disk == disk && freeMapFile.hdr == MapHeader(disk.sectors)
      && directoryFile.disk == disk && directoryFile.hdr == DirHeader(disk.sectors)
    }

    /** FileSystem::FileSystem(FALSE): open the two files of a formatted disk. */
    constructor (disk: SynchDisk)
      requires Sound(disk.sectors)
      ensures Valid() && this.disk == disk
    {
      hide FreeMap, Listing, WellNamed, FilesOpen, FilesApart, InUse, ValidHeader, DecodeHeader, SystemApart;
      this.disk := disk;
      freeMapFile := new OpenFile(disk, FREE_MAP_SECTOR);
      directoryFile := new OpenFile(disk, DIRECTORY_SECTOR);
    }

    /** FileSystem::FileSystem(TRUE): whatever the disk held, afterwards it is sound,
        nothing is listed, and five sectors are in use. */
    constructor Format(disk: SynchDisk, junk: seq<int>, entries: Table)
      requires |junk| == NUM_DIRECT && forall i :: 0 <= i < NUM_DIRECT ==> IsInt32(junk[i])
      requires forall i :: 0 <= i < NUM_DIR_ENTRIES ==> Storable(entries[i])
      modifies disk
      ensures Valid() && this.disk == disk
      ensures forall i :: 0 <= i < NUM_DIR_ENTRIES ==> !Listing(disk.sectors)[i].inUse
      ensures CountClear(FreeMap(disk.sectors)) == NUM_SECTORS - 5
    {
      hide MapBits, BytesTable, FileBytes, FreeMap, Listing, Sound, SystemApart, EncodeHeader, DecodeHeader;
      hide CountClear, Distinct, ValidHeader, LaidOut, WellNamed, Accounts;
      var freeMap := new Bitmap(NUM_SECTORS);
      var directory := new Directory(entries);
      var mapHdr, dirHdr := Layout(freeMap, junk);
      ghost var mh, dh := mapHdr.Value(), dirHdr.Value();
      mapHdr.WriteBack(disk, FREE_MAP_SECTOR);
      dirHdr.WriteBack(disk, DIRECTORY_SECTOR);
      LaidOutHeaders(old(disk.sectors), mh, dh, freeMap.Bits());
      ghost var d2 := disk.sectors;
      this.disk := disk;
      var mapFile := new OpenFile(disk, FREE_MAP_SECTOR);
      var dirFile := new OpenFile(disk, DIRECTORY_SECTOR);
      freeMapFile, directoryFile := mapFile, dirFile;
      StoreMap(freeMap, mapFile);
      ghost var d3 := disk.sectors;
      StoreDirectory(directory, dirFile);
      FormatWrites(d2, d3, disk.sectors, directory.Value(), freeMap.Bits());
    }

    /** FileSystem::Create: succeeds exactly when the name is new, a directory slot
        is free and the disk has room for the header and the data; otherwise no
        sector of the disk changes. */
    method Create(name: Name, initialSize: nat, junk: seq<int>)
      returns (success: bool, ghost sector: int, ghost data: seq<int>, ghost slot: int)
      requires Valid() && initialSize <= MAX_FILE_SIZE
      requires |junk| == NUM_DIRECT && forall i :: 0 <= i < NUM_DIRECT ==> IsInt32(junk[i])
      modifies disk
      ensures Valid()
      ensures success <==>
                && IsIndex(Listing(old(disk.sectors)), name, -1)
                && HasFreeSlot(Listing(old(disk.sectors)))
                && 1 + DivRoundUp(initialSize, SECTOR_SIZE) <= CountClear(FreeMap(old(disk.sectors)))
      ensures success ==> Created(old(disk.sectors), disk.sectors, name, initialSize, sector, data, slot)
      ensures !success ==> disk.sectors == old(disk.sectors)
    {
      hide FreeMap, Listing, WellNamed, FilesOpen, FilesApart, InUse, MapBits, BytesTable, FileBytes, ValidHeader;
      hide SetAll, IsIndex, IsFreeSlot, HasFreeSlot, CopyName, CountClear, Created, SystemApart, Describes, Chosen;
      hide MapHeader, DirHeader, EncodeHeader, DecodeHeader, Rooted, Sound;
      sector, data, slot := -1, [], -1;
      var directory := Search(name);
      if directory == null {
        success := false;
        return;
      }
      var header, hdr, freeMap;
      header, hdr, freeMap, data, slot := Reserve(directory, name, initialSize, junk);
      success := hdr != null;
      if success {
        sector := header;
        Commit(hdr, header, directory, freeMap, name, initialSize, data, slot);
      }
    }

    /** The first test of Create: the directory, unless it lists the name. */
    method Search(name: Name) returns (directory: Directory?)
      requires Valid()
      ensures directory == null <==> !IsIndex(Listing(disk.sectors), name, -1)
      ensures directory != null ==>
                fresh(directory) && fresh(directory.table) && directory.Valid()
                && directory.Value() == Listing(disk.sectors)
    {
      hide FreeMap, Listing, FilesOpen, FilesApart, InUse, MapBits, BytesTable, FileBytes, ValidHeader, WellNamed;
      hide SystemApart, MapHeader, DirHeader, EncodeHeader, DecodeHeader, IsIndex;
      Lookups(disk.sectors);
      assert WellNamed(Listing(disk.sectors));
      directory := FetchDirectory(directoryFile);
      var there;
      ghost var i;
      there, i := directory.Find(name);
      FoundOrNot(disk.sectors, name, i);
      if there != -1 {
        directory := null;
      }
    }

    /** The rest of Create's tests, on copies of the map and the directory. */
    method Reserve(directory: Directory, name: Name, initialSize: nat, junk: seq<int>)
      returns (header: int, hdr: FileHeader?, freeMap: Bitmap, ghost data: seq<int>, ghost slot: int)
      requires Valid() && initialSize <= MAX_FILE_SIZE
      requires |junk| == NUM_DIRECT && forall i :: 0 <= i < NUM_DIRECT ==> IsInt32(junk[i])
      requires directory.Valid() && directory.Value() == Listing(disk.sectors)
      requires IsIndex(Listing(disk.sectors), name, -1)
      modifies directory.table
      ensures freeMap.Valid() && freeMap.numBits == NUM_SECTORS && directory.Valid()
      ensures hdr != null <==>
                && HasFreeSlot(Listing(disk.sectors))
                && 1 + DivRoundUp(initialSize, SECTOR_SIZE) <= CountClear(FreeMap(disk.sectors))
      ensures hdr != null ==>
                && hdr.Valid() && Fits(hdr.Value()) && 0 <= header
                && Chosen(FreeMap(disk.sectors), Listing(disk.sectors), initialSize, header, data, slot)
                && Describes(hdr.Value(), initialSize, data)
                && freeMap.Bits() == SetAll(FreeMap(disk.sectors), [header] + data)
                && directory.Value()
                   == Listing(disk.sectors)[
                        slot := Entry(true, header, CopyName(Listing(disk.sectors)[slot].name, name))]
    {
      hide FreeMap, Listing, FilesOpen, FilesApart, InUse, MapBits, BytesTable, FileBytes, ValidHeader, WellNamed;
      hide IsFirstClear, FirstFit, SetAll, IsIndex, IsFreeSlot, HasFreeSlot, CopyName, CountClear, SystemApart;
      hide MapHeader, DirHeader, EncodeHeader, DecodeHeader, Chosen, Describes;
      ghost var d := disk.sectors;
      Lookups(d);
      hdr, data, slot := null, [], -1;
      freeMap := FetchMap(freeMapFile);
      header := freeMap.FindAndSet();
      ClearOrNot(FreeMap(d), header);
      if header == -1 {
        return;
      }
      var added;
      added, slot := directory.Add(name, header);
      SlotOrNot(Listing(d), slot);
      if !added {
        return;
      }
      hdr, data := Allot(freeMap, FreeMap(d), Listing(d), header, slot, initialSize, junk);
    }

    /** A header for the file and its data sectors, if there are enough; `bits` is the map before the
        header's sector was taken. */
    method Allot(freeMap: Bitmap, ghost bits: seq<bool>, ghost t: Table, header: nat, ghost slot: int, initialSize: nat,
                 junk: seq<int>)
      returns (hdr: FileHeader?, ghost data: seq<int>)
      requires freeMap.Valid() && freeMap.numBits == NUM_SECTORS == |bits| && initialSize <= MAX_FILE_SIZE
      requires header < NUM_SECTORS && IsFirstClear(bits, header) && freeMap.Bits() == bits[header := true]
      requires 0 <= slot < NUM_DIR_ENTRIES && IsFreeSlot(t, slot)
      requires |junk| == NUM_DIRECT && forall i :: 0 <= i < NUM_DIRECT ==> IsInt32(junk[i])
      modifies freeMap.words
      ensures hdr != null <==> DivRoundUp(initialSize, SECTOR_SIZE) <= CountClear(bits[header := true])
      ensures hdr != null ==>
                && hdr.Valid() && Fits(hdr.Value()) && Chosen(bits, t, initialSize, header, data, slot)
                && Describes(hdr.Value(), initialSize, data) && freeMap.Bits() == SetAll(bits, [header as int] + data)
    {
      hide IsFirstClear, FirstFit, SetAll, IsFreeSlot, CountClear, Chosen, Describes;
      data := [];
      hdr := new FileHeader(junk);
      var fits := hdr.Allocate(freeMap, initialSize);
      if !fits {
        hdr := null;
        return;
      }
      data := hdr.dataSectors[..hdr.numSectors];
      SetBoth(bits, header, data);
      MakesChoice(bits, t, hdr.Value(), initialSize, header, data, slot);
    }

    /** The three writes that make a Create permanent. */
    method Commit(hdr: FileHeader, header: nat, directory: Directory, freeMap: Bitmap,
                  ghost name: Name, ghost size: nat, ghost data: seq<int>, ghost slot: int)
      requires Valid() && hdr.Valid() && Fits(hdr.Value()) && directory.Valid()
      requires freeMap.Valid() && freeMap.numBits == NUM_SECTORS
      requires size <= MAX_FILE_SIZE && IsIndex(Listing(disk.sectors), name, -1)
      requires Chosen(FreeMap(disk.sectors), Listing(disk.sectors), size, header, data, slot)
      requires Describes(hdr.Value(), size, data)
      requires freeMap.Bits() == SetAll(FreeMap(disk.sectors), [header as int] + data)
      requires directory.Value()
            == Listing(disk.sectors)[slot := Entry(true, header, CopyName(Listing(disk.sectors)[slot].name, name))]
      modifies disk
      ensures Valid() && Created(old(disk.sectors), disk.sectors, name, size, header, data, slot)
    {
      hide FreeMap, Listing, WellNamed, FilesOpen, FilesApart, InUse, MapBits, BytesTable, FileBytes, ValidHeader;
      hide IsFirstClear, FirstFit, SetAll, IsIndex, IsFreeSlot, CopyName, Created, SystemApart, Describes;
      hide MapHeader, DirHeader, EncodeHeader, DecodeHeader;
      ghost var d, h := disk.sectors, hdr.Value();
      hdr.WriteBack(disk, header);
      StoreDirectory(directory, directoryFile);
      ghost var d2 := disk.sectors;
      StoreMap(freeMap, freeMapFile);
      CreateWrites(d, h, d2, disk.sectors, name, size, header, data, slot, directory.Value(), freeMap.Bits());
      CreatedKeeps(d, disk.sectors, name, size, header, data, slot);
    }

    /** FileSystem::Open: the header sector of a listed name, opened. */
    method Open(name: Name) returns (file: OpenFile?, ghost i: int)
      requires Valid()
      ensures IsIndex(Listing(disk.sectors), name, i)
      ensures file == null <==> i == -1
      ensures file != null ==>
                && fresh(file) && file.disk == disk && file.Valid() && file.seekPosition == 0
                && Opens(disk.sectors, Listing(disk.sectors)[i])
                && file.hdr == HeaderAt(disk.sectors, Listing(disk.sectors)[i].sector)
    {
      hide FreeMap, Listing, FilesOpen, FilesApart, InUse, MapBits, BytesTable, FileBytes, ValidHeader, SystemApart;
      hide MapHeader, DirHeader, DecodeHeader, IsIndex, WellNamed;
      ghost var d := disk.sectors;
      Lookups(d);
      assert WellNamed(Listing(d));
      var directory := FetchDirectory(directoryFile);
      var sector;
      sector, i := directory.Find(name);
      FoundOrNot(d, name, i);
      IndexRange(Listing(d), name, i);
      file := null;
      if sector >= 0 {
        file := new OpenFile(disk, sector);
      }
    }

    /** The free map without the sectors of the i-th entry's file. */
    method Release(sector: nat, ghost i: int) returns (freeMap: Bitmap)
      requires Valid() && 0 <= i < NUM_DIR_ENTRIES && Listing(disk.sectors)[i].inUse
      requires sector == Listing(disk.sectors)[i].sector
      ensures freeMap.Valid() && freeMap.numBits == NUM_SECTORS && fresh(freeMap) && fresh(freeMap.words)
      ensures Opens(disk.sectors, Listing(disk.sectors)[i])
      ensures freeMap.Bits() == ClearAll(FreeMap(disk.sectors), OwnedList(disk.sectors, Listing(disk.sectors)[i]))
    {
      hide FreeMap, Listing, FilesOpen, FilesApart, InUse, MapBits, BytesTable, FileBytes, SystemApart;
      hide MapHeader, DirHeader, DecodeHeader, WellNamed, ClearAll, Distinct;
      ghost var d := disk.sectors;
      Lookups(d);
      OwnedIsMarked(d, i);
      var fileHdr := new FileHeader(seq(NUM_DIRECT, _ => 0));
      fileHdr.FetchFrom(disk, sector);
      freeMap := FetchMap(freeMapFile);
      fileHdr.Deallocate(freeMap);
      freeMap.Clear(sector);
      ClearBoth(FreeMap(d), sector, Data(fileHdr.Value()));
    }

    /** FileSystem::Remove. */
    method Remove(name: Name) returns (success: bool, ghost i: int)
      requires Valid()
      modifies disk
      ensures Valid()
      ensures IsIndex(Listing(old(disk.sectors)), name, i) && (success <==> i >= 0)
      ensures success ==> Removed(old(disk.sectors), disk.sectors, name, i)
      ensures !success ==> disk.sectors == old(disk.sectors)
    {
      hide FreeMap, Listing, FilesOpen, FilesApart, InUse, MapBits, BytesTable, FileBytes, SystemApart;
      hide MapHeader, DirHeader, DecodeHeader, IsIndex, WellNamed, ClearAll, Removed, Distinct;
      ghost var d := disk.sectors;
      Lookups(d);
      assert WellNamed(Listing(d));
      var directory := FetchDirectory(directoryFile);
      var sector;
      sector, i := directory.Find(name);
      FoundOrNot(d, name, i);
      IndexRange(Listing(d), name, i);
      if sector == -1 {
        success := false;
        return;
      }
      success := true;
      var freeMap := Release(sector, i);
      var removed;
      ghost var j;
      removed, j := directory.Remove(name);
      SameIndex(Listing(d), name, i, j);
      StoreMap(freeMap, freeMapFile);
      ghost var d1 := disk.sectors;
      StoreDirectory(directory, directoryFile);
      RemoveWrites(d, d1, disk.sectors, name, i, directory.Value(), freeMap.Bits());
      RemovedKeeps(d, disk.sectors, name, i);
    }
  }

  lemma {:induction false} CountAfterFit(bits: seq<bool>, data: seq<int>)
    requires FirstFit(bits, data)
    ensures CountClear(SetAll(bits, data)) == CountClear(bits) - |data|
  {
    if data == [] {
      FirstFitNone(bits);
    } else {
      var init, s := data[..|data| - 1], data[|data| - 1];
      assert FirstFit(bits, init) by {
        forall i | 0 <= i < |init| ensures init[..i] == data[..i] {}
      }
      CountAfterFit(bits, init);
      assert init + [s] == data;
      FirstFitStep(bits, init, s);
      CountAfterSet(SetAll(bits, init), s);
    }
  }

  lemma SetTwice(bits: seq<bool>, a: seq<int>, b: seq<int>)
    ensures forall s :: 0 <= s < |bits| ==> (SetAll(SetAll(bits, a), b)[s] <==> bits[s] || s in a || s in b)
    ensures forall s :: 0 <= s < |bits| ==> (SetAll(bits, a)[s] <==> bits[s] || s in a)
  {
  }

  lemma IndexRange(t: Table, name: Name, i: int)
    requires (forall k :: 0 <= k < NUM_DIR_ENTRIES ==> Storable(t[k])) && IsIndex(t, name, i)
    ensures -1 <= i < NUM_DIR_ENTRIES && (i >= 0 ==> t[i].inUse)
  {
  }

  /** A name is listed at most once. */
  lemma SameIndex(t: Table, name: Name, i: int, j: int)
    requires WellNamed(t) && IsIndex(t, name, i) && IsIndex(t, name, j)
    ensures i == j
  {
  }
}
