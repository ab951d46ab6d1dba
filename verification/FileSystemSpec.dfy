/** What the disk holds while the file system runs, and what Create and Remove do to
    it (filesys/filesys.cc). */
module FileSystemSpec {
  import opened Bytes
  import opened DiskImage
  import opened Bitmaps
  import opened FileHeaders
  import opened Directories

  const FREE_MAP_SECTOR := 0
  const DIRECTORY_SECTOR := 1
  const FREE_MAP_FILE_SIZE := NUM_SECTORS / 8

  function MapHeader(d: Image): Header {
    DecodeHeader(d[FREE_MAP_SECTOR])
  }

  function DirHeader(d: Image): Header {
    DecodeHeader(d[DIRECTORY_SECTOR])
  }

  /** The two files that hold the free map and the directory are in order. */
  ghost predicate Rooted(d: Image) {
    && ValidHeader(MapHeader(d)) && MapHeader(d).numBytes == FREE_MAP_FILE_SIZE
    && ValidHeader(DirHeader(d)) && DirHeader(d).numBytes == DIRECTORY_FILE_SIZE
  }

  function MapBits(b: seq<byte>): (bits: seq<bool>)
    requires |b| == FREE_MAP_FILE_SIZE
    ensures |bits| == NUM_SECTORS
  {
    BitsOf(UnpackWords(b), NUM_SECTORS)
  }

  ghost function FreeMap(d: Image): (bits: seq<bool>)
    requires Rooted(d)
    ensures |bits| == NUM_SECTORS
  {
    MapBits(FileBytes(d, MapHeader(d)))
  }

  ghost function Listing(d: Image): (t: Table)
    requires Rooted(d)
    ensures forall i :: 0 <= i < NUM_DIR_ENTRIES ==> Storable(t[i])
  {
    BytesTable(FileBytes(d, DirHeader(d)))
  }

  // ----- who owns which sector -----

  ghost function SystemSectors(d: Image): set<int>
    requires Rooted(d)
  {
    {FREE_MAP_SECTOR, DIRECTORY_SECTOR} + (set s | s in Data(MapHeader(d))) + (set s | s in Data(DirHeader(d)))
  }

  /** The header sector and the data sectors of a file. */
  ghost function FileSectors(sector: int, h: Header): set<int>
    requires ValidHeader(h)
  {
    {sector} + (set s | s in Data(h))
  }

  ghost predicate SystemApart(d: Image)
    requires Rooted(d)
  {
    && FREE_MAP_SECTOR !in Data(MapHeader(d)) && DIRECTORY_SECTOR !in Data(MapHeader(d))
    && FREE_MAP_SECTOR !in Data(DirHeader(d)) && DIRECTORY_SECTOR !in Data(DirHeader(d))
    && (forall s :: s in Data(MapHeader(d)) ==> s !in Data(DirHeader(d)))
  }

  /** The header of the i-th directory entry, read from the disk. */
  function HeaderAt(d: Image, sector: int): Header
    requires 0 <= sector < NUM_SECTORS
  {
    DecodeHeader(d[sector])
  }

  /** Entry `e` names a file whose header is in order. */
  ghost predicate Opens(d: Image, e: Entry) {
    && 0 <= e.sector < NUM_SECTORS
    && ValidHeader(HeaderAt(d, e.sector))
    && e.sector !in Data(HeaderAt(d, e.sector))
  }

  ghost function Owned(d: Image, e: Entry): set<int>
    requires Opens(d, e)
  {
    FileSectors(e.sector, HeaderAt(d, e.sector))
  }

  /** The same sectors, header first. */
  ghost function OwnedList(d: Image, e: Entry): seq<int>
    requires Opens(d, e)
  {
    [e.sector] + Data(HeaderAt(d, e.sector))
  }

  ghost predicate FilesOpen(d: Image, t: Table) {
    forall i :: 0 <= i < NUM_DIR_ENTRIES && t[i].inUse ==> Opens(d, t[i])
  }

  ghost predicate FilesApart(d: Image, t: Table, system: set<int>)
    requires FilesOpen(d, t)
  {
    && (forall i :: 0 <= i < NUM_DIR_ENTRIES && t[i].inUse ==> Owned(d, t[i]) !! system)
    && (forall i, j :: 0 <= i < j < NUM_DIR_ENTRIES && t[i].inUse && t[j].inUse ==>
                         Owned(d, t[i]) !! Owned(d, t[j]))
  }

  /** Sector s belongs to the system files or to a listed file. */
  ghost predicate InUse(d: Image, t: Table, system: set<int>, s: int)
    requires FilesOpen(d, t)
  {
    s in system || exists i :: 0 <= i < NUM_DIR_ENTRIES && t[i].inUse && s in Owned(d, t[i])
  }

  /** The ownership invariant: headers are in order, no sector has two owners, and
      the marked sectors are exactly the owned ones. */
  ghost predicate Sound(d: Image) {
    && Rooted(d) && SystemApart(d)
    && WellNamed(Listing(d)) && FilesOpen(d, Listing(d))
    && FilesApart(d, Listing(d), SystemSectors(d))
    && forall s :: 0 <= s < NUM_SECTORS ==> (FreeMap(d)[s] <==> InUse(d, Listing(d), SystemSectors(d), s))
  }

  // ----- the effect of the operations -----

  /** Outside the two system files and `touched`, the disk is the same. */
  ghost predicate KeepsRest(d: Image, d': Image, touched: set<int>)
    requires Rooted(d)
  {
    forall s :: 0 <= s < NUM_SECTORS && s !in Data(MapHeader(d)) && s !in Data(DirHeader(d)) && s !in touched ==>
                  d'[s] == d[s]
  }

  /** What Create chooses: the first free sector for the header, the next free
      ones for the data, and the first free directory slot. */
  ghost predicate Chosen(bits: seq<bool>, t: Table, size: nat, sector: int, data: seq<int>, slot: int)
    requires |bits| == NUM_SECTORS
  {
    && 0 <= sector < NUM_SECTORS && IsFirstClear(bits, sector)
    && |data| == DivRoundUp(size, SECTOR_SIZE) && FirstFit(bits[sector := true], data)
    && 0 <= slot < NUM_DIR_ENTRIES && IsFreeSlot(t, slot)
  }

  ghost predicate Describes(h: Header, size: nat, data: seq<int>) {
    h.numBytes == size && h.numSectors == |data| <= |h.dataSectors| && h.dataSectors[..|data|] == data
  }

  /** A successful Create. */
  ghost predicate Created(d: Image, d': Image, name: Name, size: nat, sector: int, data: seq<int>, slot: int) {
    && Rooted(d) && Rooted(d') && size <= MAX_FILE_SIZE
    && IsIndex(Listing(d), name, -1)
    && Chosen(FreeMap(d), Listing(d), size, sector, data, slot)
    && Describes(HeaderAt(d', sector), size, data)
    && FreeMap(d') == SetAll(FreeMap(d), [sector] + data)
    && Listing(d') == Listing(d)[slot := Entry(true, sector, CopyName(Listing(d)[slot].name, name))]
    && KeepsRest(d, d', {sector})
  }

  /** A successful Remove of the file at entry i. */
  ghost predicate Removed(d: Image, d': Image, name: Name, i: int) {
    && Rooted(d) && Rooted(d')
    && 0 <= i < NUM_DIR_ENTRIES && IsIndex(Listing(d), name, i) && Opens(d, Listing(d)[i])
    && FreeMap(d') == ClearAll(FreeMap(d), OwnedList(d, Listing(d)[i]))
    && Listing(d') == Listing(d)[i := Listing(d)[i].(inUse := false)]
    && KeepsRest(d, d', {})
  }

  /** A write through an open file changes only the data sectors that the handle's header names.  The handle keeps
      the header it was opened with, whatever has happened to the file since. */
  ghost predicate Wrote(d: Image, d': Image, h: Header) {
    ValidHeader(h) && forall s :: 0 <= s < NUM_SECTORS && s !in Data(h) ==> d'[s] == d[s]
  }

  /** Writing through h cannot touch what the file system reads: the system's sectors and the listed files' headers. */
  ghost predicate Harmless(d: Image, h: Header)
    requires Rooted(d) && ValidHeader(h)
  {
    forall s :: s in Data(h) ==>
      && s !in SystemSectors(d)
      && forall i :: 0 <= i < NUM_DIR_ENTRIES && Listing(d)[i].inUse ==> Listing(d)[i].sector != s
  }
}
