/** The contents of the disk, and files as the header on disk describes them
    (machine/disk.h, filesys/filehdr.cc). */
module DiskImage {
  import opened Base
  import opened Bytes

  const SECTOR_SIZE := 128
  const NUM_SECTORS := 1024
  const NUM_DIRECT := 30  // data sector numbers that fit in one header
  const MAX_FILE_SIZE := NUM_DIRECT * SECTOR_SIZE

  type Sector = s: seq<byte> | |s| == SECTOR_SIZE witness seq(SECTOR_SIZE, _ => 0)

  type Image = d: seq<Sector> | |d| == NUM_SECTORS
    witness seq(NUM_SECTORS, _ => seq(SECTOR_SIZE, _ => 0 as byte))

  // ----- sector accesses -----

  type SectorNumber = n: nat | n < NUM_SECTORS

  datatype Access = Read(sector: SectorNumber) | Write(sector: SectorNumber, data: Sector)

  /** What the disk does on one access, and what it answers (a write with its own data). */
  function Serve(d: Image, a: Access): (Image, Sector) {
    match a
    case Read(sector) => (d, d[sector])
    case Write(sector, data) => (d[sector := data], data)
  }

  function DivRoundUp(n: nat, s: nat): nat
    requires s > 0
  {
    n / s + if n % s > 0 then 1 else 0
  }

  // ----- headers -----

  datatype Header = Header(numBytes: int, numSectors: int, dataSectors: seq<int>)

  /** What a FileHeader object can hold. */
  predicate Fits(h: Header) {
    && IsInt32(h.numBytes) && IsInt32(h.numSectors)
    && |h.dataSectors| == NUM_DIRECT && forall i :: 0 <= i < NUM_DIRECT ==> IsInt32(h.dataSectors[i])
  }

  function EncodeHeader(h: Header): (s: Sector)
    requires Fits(h)
  {
    PackInts([h.numBytes, h.numSectors] + h.dataSectors)
  }

  function DecodeHeader(s: Sector): (h: Header)
    ensures Fits(h)
  {
    var a := UnpackInts(s);
    Header(a[0], a[1], a[2..])
  }

  /** FetchFrom after WriteBack returns the same header. */
  lemma HeaderRoundTrip(h: Header)
    requires Fits(h)
    ensures DecodeHeader(EncodeHeader(h)) == h
  {
    IntsRoundTrip([h.numBytes, h.numSectors] + h.dataSectors);
  }

  /** The data sectors of a file. */
  function Data(h: Header): seq<int>
    requires 0 <= h.numSectors <= |h.dataSectors|
  {
    h.dataSectors[..h.numSectors]
  }

  /** A header as Allocate leaves it. */
  ghost predicate ValidHeader(h: Header) {
    && Fits(h)
    && 0 <= h.numBytes <= MAX_FILE_SIZE
    && h.numSectors == DivRoundUp(h.numBytes, SECTOR_SIZE) <= NUM_DIRECT
    && (forall i :: 0 <= i < h.numSectors ==> 0 <= h.dataSectors[i] < NUM_SECTORS)
    && Distinct(Data(h))
  }

  // ----- files as flat byte arrays -----

  /** Byte k of a file is byte k % SECTOR_SIZE of its data sector k / SECTOR_SIZE. */
  ghost function FileBytes(d: Image, h: Header): (f: seq<byte>)
    requires ValidHeader(h)
    ensures |f| == h.numBytes
  {
    seq(h.numBytes, k requires 0 <= k < h.numBytes => d[h.dataSectors[k / SECTOR_SIZE]][k % SECTOR_SIZE])
  }

  /** How many bytes a request for `n` bytes at `position` transfers. */
  function Clip(length: nat, n: int, position: nat): nat {
    if n <= 0 || position >= length then 0
    else if position + n > length then length - position
    else n
  }

  /** `f` with the part of `data` that fits written over it at `position`. */
  function Splice<T>(f: seq<T>, position: nat, data: seq<T>): (g: seq<T>)
    ensures |g| == |f|
  {
    var n := Clip(|f|, |data|, position);
    if n == 0 then f else f[..position] + data[..n] + f[position + n..]
  }

  /** Writing `a` and then `b` where `a` ended is writing them at once. */
  lemma SpliceChunks<T>(f: seq<T>, position: nat, a: seq<T>, b: seq<T>)
    ensures var n := Clip(|f|, |a|, position);
            Splice(Splice(f, position, a), position + n, b) == Splice(f, position, a + b)
            && n + Clip(|f|, |b|, position + n) == Clip(|f|, |a + b|, position)
  {
    var n := Clip(|f|, |a|, position);
    var u, v := Splice(Splice(f, position, a), position + n, b), Splice(f, position, a + b);
    assert |u| == |v|;
    forall i | 0 <= i < |u| ensures u[i] == v[i] {
    }
  }

  /** Changing other sectors does not change a file. */
  lemma FileFrame(d: Image, d': Image, h: Header)
    requires ValidHeader(h) && forall s :: s in Data(h) ==> d'[s] == d[s]
    ensures FileBytes(d', h) == FileBytes(d, h)
  {
    forall k | 0 <= k < h.numBytes
      ensures d'[h.dataSectors[k / SECTOR_SIZE]] == d[h.dataSectors[k / SECTOR_SIZE]]
    {
      assert Data(h)[k / SECTOR_SIZE] == h.dataSectors[k / SECTOR_SIZE];
    }
  }

  /** The bytes of `count` whole data sectors from the `first` one on. */
  ghost function RawBytes(d: Image, h: Header, first: nat, count: nat): (r: seq<byte>)
    requires ValidHeader(h) && first + count <= h.numSectors
    ensures |r| == count * SECTOR_SIZE
  {
    seq(count * SECTOR_SIZE,
        k requires 0 <= k < count * SECTOR_SIZE => d[h.dataSectors[first + k / SECTOR_SIZE]][k % SECTOR_SIZE])
  }

  lemma RawStep(d: Image, h: Header, first: nat, count: nat)
    requires ValidHeader(h) && first + count < h.numSectors
    ensures RawBytes(d, h, first, count + 1) == RawBytes(d, h, first, count) + d[h.dataSectors[first + count]]
  {
  }

  lemma RawFile(d: Image, h: Header, first: nat, count: nat, k: nat)
    requires ValidHeader(h) && first + count <= h.numSectors
    requires first * SECTOR_SIZE <= k < (first + count) * SECTOR_SIZE && k < h.numBytes
    ensures RawBytes(d, h, first, count)[k - first * SECTOR_SIZE] == FileBytes(d, h)[k]
  {
    assert first + (k - first * SECTOR_SIZE) / SECTOR_SIZE == k / SECTOR_SIZE;
  }

  lemma RawFrame(d: Image, d': Image, h: Header, first: nat, count: nat)
    requires ValidHeader(h) && first + count <= h.numSectors
    requires forall i :: first <= i < first + count ==> d'[h.dataSectors[i]] == d[h.dataSectors[i]]
    ensures RawBytes(d', h, first, count) == RawBytes(d, h, first, count)
  {
  }

  /** Two data sectors of one file are different sectors. */
  lemma SectorsApart(h: Header, i: nat, j: nat)
    requires ValidHeader(h) && i < j < h.numSectors
    ensures h.dataSectors[i] != h.dataSectors[j]
  {
    assert Data(h)[i] == h.dataSectors[i] && Data(h)[j] == h.dataSectors[j];
  }

  /** Where sectors first .. first + count - 1 end inside the file. */
  function InFile(h: Header, first: nat, count: nat): (end: int)
    requires count > 0 && first * SECTOR_SIZE < h.numBytes
    ensures first * SECTOR_SIZE <= end <= h.numBytes && end - first * SECTOR_SIZE <= count * SECTOR_SIZE
  {
    if (first + count) * SECTOR_SIZE <= h.numBytes then (first + count) * SECTOR_SIZE else h.numBytes
  }

  /** `d'` is `d` with the file's sectors first .. first + count - 1 rewritten so
      that, inside the file, they agree with `f`; elsewhere `f` is the old file. */
  ghost predicate Rewrites(d: Image, d': Image, h: Header, first: nat, count: nat, f: seq<byte>)
    requires ValidHeader(h) && count > 0 && first + count <= h.numSectors && |f| == h.numBytes
    requires first * SECTOR_SIZE < h.numBytes
  {
    var lo, hi := first * SECTOR_SIZE, InFile(h, first, count);
    && (forall i :: 0 <= i < h.numSectors && !(first <= i < first + count) ==>
                      d'[h.dataSectors[i]] == d[h.dataSectors[i]])
    && RawBytes(d', h, first, count)[..hi - lo] == f[lo..hi]
    && f[..lo] == FileBytes(d, h)[..lo]
    && f[hi..] == FileBytes(d, h)[hi..]
  }

  lemma RewrittenInside(d: Image, d': Image, h: Header, first: nat, count: nat, f: seq<byte>, k: nat)
    requires ValidHeader(h) && count > 0 && first + count <= h.numSectors && |f| == h.numBytes
    requires first * SECTOR_SIZE <= k < InFile(h, first, count) && Rewrites(d, d', h, first, count, f)
    ensures FileBytes(d', h)[k] == f[k]
  {
    hide FileBytes, RawBytes;
    var lo, hi := first * SECTOR_SIZE, InFile(h, first, count);
    RawFile(d', h, first, count, k);
    var raw := RawBytes(d', h, first, count);
    assert raw[k - lo] == raw[..hi - lo][k - lo] == f[lo..hi][k - lo] == f[k];
  }

  lemma RewrittenOutside(d: Image, d': Image, h: Header, first: nat, count: nat, f: seq<byte>, k: nat)
    requires ValidHeader(h) && count > 0 && first + count <= h.numSectors && |f| == h.numBytes
    requires first * SECTOR_SIZE < h.numBytes && k < h.numBytes
    requires !(first * SECTOR_SIZE <= k < InFile(h, first, count)) && Rewrites(d, d', h, first, count, f)
    ensures FileBytes(d', h)[k] == f[k]
  {
    hide RawBytes;
    var lo, hi := first * SECTOR_SIZE, InFile(h, first, count);
    assert !(first <= k / SECTOR_SIZE < first + count);
    assert FileBytes(d', h)[k] == FileBytes(d, h)[k];
    if k < lo {
      assert f[k] == f[..lo][k] == FileBytes(d, h)[..lo][k];
    } else {
      assert f[k] == f[hi..][k - hi] == FileBytes(d, h)[hi..][k - hi];
    }
  }

  lemma Rewritten(d: Image, d': Image, h: Header, first: nat, count: nat, f: seq<byte>)
    requires ValidHeader(h) && count > 0 && first + count <= h.numSectors && |f| == h.numBytes
    requires first * SECTOR_SIZE < h.numBytes && Rewrites(d, d', h, first, count, f)
    ensures FileBytes(d', h) == f
  {
    hide Rewrites;
    forall k | 0 <= k < h.numBytes ensures FileBytes(d', h)[k] == f[k] {
      if first * SECTOR_SIZE <= k < InFile(h, first, count) {
        RewrittenInside(d, d', h, first, count, f, k);
      } else {
        RewrittenOutside(d, d', h, first, count, f, k);
      }
    }
  }
}
