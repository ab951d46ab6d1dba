/** Byte access to a file through whole sectors (filesys/openfile.cc). */
module OpenFiles {
  import opened Base
  import opened Bytes
  import opened DiskImage

  /** The disk behind SynchDisk::ReadSector and SynchDisk::WriteSector. */
  class SynchDisk {
    var sectors: Image

    constructor (image: Image)
      ensures sectors == image
    {
      sectors := image;
    }

    method ReadSector(sector: nat, data: array<byte>, offset: nat)
      requires sector < NUM_SECTORS && offset + SECTOR_SIZE <= data.Length
      modifies data
      ensures data[..]
           == old(data[..offset]) + Serve(sectors, Access.Read(sector)).1 + old(data[offset + SECTOR_SIZE..])
    {
      var s := sectors[sector];
      forall j | 0 <= j < SECTOR_SIZE {
        data[offset + j] := s[j];
      }
    }

    method WriteSector(sector: nat, data: array<byte>, offset: nat)
      requires sector < NUM_SECTORS && offset + SECTOR_SIZE <= data.Length
      modifies this
      ensures sectors == Serve(old(sectors), Access.Write(sector, data[offset..offset + SECTOR_SIZE])).0
    {
      sectors := sectors[sector := data[offset..offset + SECTOR_SIZE]];
    }
  }

  class OpenFile {
    const disk: SynchDisk
    const hdr: Header
    var seekPosition: int

    ghost predicate Valid() {
      ValidHeader(hdr)
    }

    ghost function Contents(): seq<byte>
      requires Valid()
      reads disk
    {
      FileBytes(disk.sectors, hdr)
    }

    constructor (disk: SynchDisk, sector: nat)
      requires sector < NUM_SECTORS && ValidHeader(DecodeHeader(disk.sectors[sector]))
      ensures this.disk == disk && hdr == DecodeHeader(disk.sectors[sector]) && Valid() && seekPosition == 0
    {
      this.disk := disk;
      hdr := DecodeHeader(disk.sectors[sector]);
      seekPosition := 0;
    }

    /** FileHeader::ByteToSector. */
    function ByteToSector(offset: nat): (s: nat)
      requires Valid() && offset < hdr.numBytes
      ensures s in Data(hdr) && s < NUM_SECTORS
    {
      assert Data(hdr)[offset / SECTOR_SIZE] == hdr.dataSectors[offset / SECTOR_SIZE];
      hdr.dataSectors[offset / SECTOR_SIZE]
    }

    /** Sectors firstSector .. lastSector into a buffer that holds exactly them. */
    method ReadSectors(buf: array<byte>, firstSector: nat, lastSector: nat)
      requires Valid() && firstSector <= lastSector < hdr.numSectors
      requires buf.Length == (1 + lastSector - firstSector) * SECTOR_SIZE
      modifies buf
      ensures buf[..] == RawBytes(disk.sectors, hdr, firstSector, 1 + lastSector - firstSector)
    {
      var i := firstSector;
      while i <= lastSector
        invariant firstSector <= i <= lastSector + 1
        invariant buf[..(i - firstSector) * SECTOR_SIZE] == RawBytes(disk.sectors, hdr, firstSector, i - firstSector)
      {
        RawStep(disk.sectors, hdr, firstSector, i - firstSector);
        disk.ReadSector(ByteToSector(i * SECTOR_SIZE), buf, (i - firstSector) * SECTOR_SIZE);
        i := i + 1;
      }
      assert buf[..] == buf[..buf.Length];
    }

    /** OpenFile::ReadAt: the clipped range of the file, and nothing else, reaches
        the buffer; the disk is not touched. */
    method ReadAt(into: array<byte>, start: nat, numBytes: int, position: nat) returns (n: nat)
      requires Valid() && position + numBytes < TWO_TO_31
      requires start + Clip(hdr.numBytes, numBytes, position) <= into.Length
      modifies into
      ensures n == Clip(hdr.numBytes, numBytes, position)
      ensures n == 0 ==> into[..] == old(into[..])
      ensures n > 0 ==> into[..] == old(into[..start]) + Contents()[position..position + n] + old(into[start + n..])
    {
      n := Clip(hdr.numBytes, numBytes, position);
      if n == 0 {
        return;
      }
      SpanOf(hdr, position, n);
      hide FileBytes, ValidHeader, RawBytes, Clip, InFile;
      var firstSector := position / SECTOR_SIZE;
      var lastSector := (position + n - 1) / SECTOR_SIZE;
      ReadSpan(into, start, n, position, firstSector, lastSector);
    }

    /** ReadAt once the request is clipped. */
    method ReadSpan(into: array<byte>, start: nat, n: nat, position: nat, firstSector: nat, lastSector: nat)
      requires Valid() && position + n <= hdr.numBytes && firstSector <= lastSector < hdr.numSectors
      requires firstSector * SECTOR_SIZE <= position && position + n <= (lastSector + 1) * SECTOR_SIZE
      requires start + n <= into.Length
      modifies into
      ensures into[..] == old(into[..start]) + Contents()[position..position + n] + old(into[start + n..])
    {
      hide FileBytes, ValidHeader, RawBytes;
      var buf := new byte[(1 + lastSector - firstSector) * SECTOR_SIZE];
      ReadSectors(buf, firstSector, lastSector);
      var from := position - firstSector * SECTOR_SIZE;
      RawSpan(disk.sectors, hdr, firstSector, 1 + lastSector - firstSector, position, n);
      assert buf[from..from + n] == buf[..][from..from + n];
      ghost var was := into[..];
      Copy(buf[from..from + n], into, start);
      assert was[..start] == old(into[..start]) && was[start + n..] == old(into[start + n..]);
    }

    /** bcopy. */
    static method Copy(from: seq<byte>, into: array<byte>, start: nat)
      requires start + |from| <= into.Length
      modifies into
      ensures into[..] == Overlaid(old(into[..]), start, from)
    {
      forall j | 0 <= j < |from| {
        into[start + j] := from[j];
      }
    }

    method WriteSectors(buf: array<byte>, firstSector: nat, lastSector: nat)
      requires Valid() && firstSector <= lastSector < hdr.numSectors
      requires buf.Length == (1 + lastSector - firstSector) * SECTOR_SIZE
      modifies disk
      ensures buf[..] == RawBytes(disk.sectors, hdr, firstSector, 1 + lastSector - firstSector)
      ensures forall s :: 0 <= s < NUM_SECTORS && s !in hdr.dataSectors[firstSector..lastSector + 1] ==>
                            disk.sectors[s] == old(disk.sectors)[s]
    {
      var i := firstSector;
      NoneStored(disk.sectors, hdr, firstSector, buf[..]);
      hide RawBytes, ValidHeader, Stored, Others;
      while i <= lastSector
        invariant firstSector <= i <= lastSector + 1
        invariant Stored(disk.sectors, hdr, firstSector, i - firstSector, buf[..])
        invariant Others(old(disk.sectors), disk.sectors, hdr, firstSector, i)
      {
        WriteOne(buf, firstSector, i, old(disk.sectors));
        i := i + 1;
      }
      AllStored(old(disk.sectors), disk.sectors, hdr, firstSector, lastSector, buf[..]);
    }

    /** One pass of the loop of WriteSectors. */
    method WriteOne(buf: array<byte>, firstSector: nat, i: nat, ghost start: Image)
      requires Valid() && firstSector <= i < hdr.numSectors && (1 + i - firstSector) * SECTOR_SIZE <= buf.Length
      requires Stored(disk.sectors, hdr, firstSector, i - firstSector, buf[..])
      requires Others(start, disk.sectors, hdr, firstSector, i)
      modifies disk
      ensures Stored(disk.sectors, hdr, firstSector, 1 + i - firstSector, buf[..])
      ensures Others(start, disk.sectors, hdr, firstSector, i + 1)
    {
      hide RawBytes, Stored, Others;
      ghost var before := disk.sectors;
      SectorStart(hdr, i);
      var offset := (i - firstSector) * SECTOR_SIZE;
      disk.WriteSector(ByteToSector(i * SECTOR_SIZE), buf, offset);
      assert buf[offset..offset + SECTOR_SIZE] == buf[..][offset..offset + SECTOR_SIZE];
      hide ValidHeader;
      StoredOne(before, disk.sectors, hdr, firstSector, i, buf[..]);
      OthersOne(start, before, disk.sectors, hdr, firstSector, i);
    }

    /** Reads one whole sector of the file, as far as it lies inside the file. */
    method Prefill(buf: array<byte>, offset: nat, sector: nat) returns (got: nat)
      requires Valid() && sector * SECTOR_SIZE < hdr.numBytes && offset + SECTOR_SIZE <= buf.Length
      modifies buf
      ensures got == InFile(hdr, sector, 1) - sector * SECTOR_SIZE
      ensures buf[offset..offset + got] == Contents()[sector * SECTOR_SIZE..sector * SECTOR_SIZE + got]
      ensures buf[..offset] == old(buf[..offset])
      ensures buf[offset + got..] == old(buf[offset + got..])
    {
      got := ReadAt(buf, offset, SECTOR_SIZE, sector * SECTOR_SIZE);
    }

    /** WriteAt reads in the first sector when the write starts inside it. */
    method PrefillFirst(buf: array<byte>, n: nat, position: nat, firstSector: nat, lastSector: nat, ghost end: int)
      requires Valid() && Spans(hdr.numBytes, position, n, firstSector, lastSector, end)
      requires buf.Length == (1 + lastSector - firstSector) * SECTOR_SIZE
      modifies buf
      ensures Holds(buf[..], Contents(), firstSector * SECTOR_SIZE, firstSector * SECTOR_SIZE, position)
      ensures position != firstSector * SECTOR_SIZE && firstSector == lastSector ==>
                Holds(buf[..], Contents(), firstSector * SECTOR_SIZE, position + n, end)
    {
      hide FileBytes, ValidHeader, Holds;
      ghost var base, c := firstSector * SECTOR_SIZE, Contents();
      if position != firstSector * SECTOR_SIZE {
        var got := Prefill(buf, 0, firstSector);
        HoldsPart(buf[..], 0, got, c, base, base, position);
        if firstSector == lastSector {
          HoldsPart(buf[..], 0, got, c, base, position + n, end);
        }
      } else {
        HoldsNone(buf[..], c, base);
      }
    }

    /** WriteAt reads in the last sector when the write ends inside it, unless
        that was done already. */
    method PrefillLast(buf: array<byte>, n: nat, position: nat, firstSector: nat, lastSector: nat, ghost end: int)
      requires Valid() && Spans(hdr.numBytes, position, n, firstSector, lastSector, end)
      requires buf.Length == (1 + lastSector - firstSector) * SECTOR_SIZE
      requires Holds(buf[..], Contents(), firstSector * SECTOR_SIZE, firstSector * SECTOR_SIZE, position)
      requires position != firstSector * SECTOR_SIZE && firstSector == lastSector ==>
                 Holds(buf[..], Contents(), firstSector * SECTOR_SIZE, position + n, end)
      modifies buf
      ensures Holds(buf[..], Contents(), firstSector * SECTOR_SIZE, firstSector * SECTOR_SIZE, position)
      ensures Holds(buf[..], Contents(), firstSector * SECTOR_SIZE, position + n, end)
    {
      hide FileBytes, ValidHeader, Holds;
      ghost var base, c := firstSector * SECTOR_SIZE, Contents();
      var firstAligned := position == firstSector * SECTOR_SIZE;
      var lastAligned := position + n == (lastSector + 1) * SECTOR_SIZE;
      if !lastAligned && (firstSector != lastSector || firstAligned) {
        var offset := (lastSector - firstSector) * SECTOR_SIZE;
        ghost var was := buf[..];
        var tail := Prefill(buf, offset, lastSector);
        HoldsPart(buf[..], offset, tail, c, base, position + n, end);
        assert buf[..][..offset] == was[..offset];
        HoldsStill(was, buf[..], offset, c, base, position);
      } else if lastAligned {
        HoldsEnd(buf[..], c, base, end);
      }
    }

    /** What the file already has around the data. */
    method Surround(buf: array<byte>, n: nat, position: nat, firstSector: nat, lastSector: nat, ghost end: int)
      requires Valid() && Spans(hdr.numBytes, position, n, firstSector, lastSector, end)
      requires buf.Length == (1 + lastSector - firstSector) * SECTOR_SIZE
      modifies buf
      ensures Holds(buf[..], Contents(), firstSector * SECTOR_SIZE, firstSector * SECTOR_SIZE, position)
      ensures Holds(buf[..], Contents(), firstSector * SECTOR_SIZE, position + n, end)
    {
      hide FileBytes, ValidHeader, Holds;
      PrefillFirst(buf, n, position, firstSector, lastSector, end);
      PrefillLast(buf, n, position, firstSector, lastSector, end);
    }

    /** The buffer of WriteAt before it is written: the data between what the file already has around it. */
    method Fill(buf: array<byte>, from: seq<byte>, position: nat, firstSector: nat, lastSector: nat, ghost end: int)
      requires Valid() && Spans(hdr.numBytes, position, |from|, firstSector, lastSector, end)
      requires buf.Length == (1 + lastSector - firstSector) * SECTOR_SIZE
      modifies buf
      ensures buf[..][..end - firstSector * SECTOR_SIZE]
           == Contents()[firstSector * SECTOR_SIZE..position] + from + Contents()[position + |from|..end]
    {
      SpanBounds(hdr.numBytes, position, |from|, firstSector, lastSector, end);
      hide FileBytes, ValidHeader, Holds, Spans, Overlaid;
      Surround(buf, |from|, position, firstSector, lastSector, end);
      ghost var was := buf[..];
      Copy(from, buf, position - firstSector * SECTOR_SIZE);
      Surrounded(was, buf[..], Contents(), from, position, firstSector * SECTOR_SIZE, end);
    }

    /** OpenFile::WriteAt: the file becomes the old one with the clipped data
        spliced in, and no sector outside the file changes. */
    method WriteAt(from: seq<byte>, position: nat) returns (n: nat)
      requires Valid()
      modifies disk
      ensures n == Clip(hdr.numBytes, |from|, position)
      ensures Contents() == Splice(old(Contents()), position, from)
      ensures forall s :: 0 <= s < NUM_SECTORS && s !in Data(hdr) ==> disk.sectors[s] == old(disk.sectors)[s]
      ensures n == 0 ==> disk.sectors == old(disk.sectors)
    {
      n := Clip(hdr.numBytes, |from|, position);
      if n == 0 {
        return;
      }
      SpanOf(hdr, position, n);
      hide FileBytes, ValidHeader, Spans, InFile;
      var firstSector := position / SECTOR_SIZE;
      var lastSector := (position + n - 1) / SECTOR_SIZE;
      WriteSpan(from[..n], position, firstSector, lastSector, InFile(hdr, firstSector, 1 + lastSector - firstSector));
      SpliceFits(old(Contents()), position, from, n);
    }

    /** WriteAt once the request is clipped. */
    method WriteSpan(from: seq<byte>, position: nat, firstSector: nat, lastSector: nat, ghost end: int)
      requires Valid() && Spans(hdr.numBytes, position, |from|, firstSector, lastSector, end)
      requires firstSector <= lastSector < hdr.numSectors
      modifies disk
      ensures position + |from| <= hdr.numBytes
      ensures Contents() == old(Contents()[..position]) + from + old(Contents()[position + |from|..])
      ensures forall s :: 0 <= s < NUM_SECTORS && s !in Data(hdr) ==> disk.sectors[s] == old(disk.sectors)[s]
    {
      hide RawBytes, FileBytes, ValidHeader;
      var buf := new byte[(1 + lastSector - firstSector) * SECTOR_SIZE];
      ghost var before := disk.sectors;
      Fill(buf, from, position, firstSector, lastSector, end);
      WriteSectors(buf, firstSector, lastSector);
      WroteOnly(before, disk.sectors, hdr, firstSector, lastSector);
      WriteDone(before, disk.sectors, hdr, from, position, firstSector, lastSector, end, buf[..]);
    }

    method Seek(position: int)
      modifies this
      ensures seekPosition == position
    {
      seekPosition := position;
    }

    /** OpenFile::Read. */
    method Read(into: array<byte>, numBytes: int) returns (n: nat)
      requires Valid() && seekPosition >= 0 && seekPosition + numBytes < TWO_TO_31
      requires Clip(hdr.numBytes, numBytes, seekPosition) <= into.Length
      modifies into, this
      ensures n == Clip(hdr.numBytes, numBytes, old(seekPosition))
      ensures n > 0 ==> into[..n] == Contents()[old(seekPosition)..old(seekPosition) + n]
      ensures seekPosition == old(seekPosition) + n
    {
      n := ReadAt(into, 0, numBytes, seekPosition);
      seekPosition := seekPosition + n;
    }

    /** OpenFile::Write. */
    method Write(from: seq<byte>) returns (n: nat)
      requires Valid() && seekPosition >= 0
      modifies disk, this
      ensures n == Clip(hdr.numBytes, |from|, old(seekPosition))
      ensures Contents() == Splice(old(Contents()), old(seekPosition), from)
      ensures seekPosition == old(seekPosition) + n
      ensures forall s :: 0 <= s < NUM_SECTORS && s !in Data(hdr) ==> disk.sectors[s] == old(disk.sectors)[s]
    {
      n := WriteAt(from, seekPosition);
      seekPosition := seekPosition + n;
    }

    /** Successive writes of chunks leave the file, the position and the total
        count as one write of their concatenation would. */
    method WriteChunks(chunks: seq<seq<byte>>) returns (total: nat)
      requires Valid() && seekPosition >= 0
      modifies disk, this
      ensures Contents() == Splice(old(Contents()), old(seekPosition), Concat(chunks))
      ensures total == Clip(hdr.numBytes, |Concat(chunks)|, old(seekPosition))
      ensures seekPosition == old(seekPosition) + total
      ensures forall s :: 0 <= s < NUM_SECTORS && s !in Data(hdr) ==> disk.sectors[s] == old(disk.sectors)[s]
    {
      hide FileBytes, Splice, Clip, ValidHeader, OnlyWithin;
      assert chunks[..|chunks|] == chunks;
      total := 0;
      EmptySplice(Contents(), seekPosition);
      NothingWritten(disk.sectors, hdr);
      for i := 0 to |chunks|
        invariant Contents() == Splice(old(Contents()), old(seekPosition), Concat(chunks[..i]))
        invariant total == Clip(hdr.numBytes, |Concat(chunks[..i])|, old(seekPosition))
        invariant seekPosition == old(seekPosition) + total
        invariant OnlyWithin(old(disk.sectors), disk.sectors, hdr)
      {
        SpliceChunks(old(Contents()), old(seekPosition), Concat(chunks[..i]), chunks[i]);
        assert chunks[..i + 1][..i] == chunks[..i];
        ghost var before := disk.sectors;
        var n := Write(chunks[i]);
        MoreWritten(old(disk.sectors), before, disk.sectors, hdr);
        total := total + n;
      }
      AllWithin(old(disk.sectors), disk.sectors, hdr);
    }
  }

  /** Sectors `first` .. `last` are those of the n bytes at `position`; inside the file they end at `end`. */
  predicate Spans(length: nat, position: nat, n: nat, first: nat, last: nat, end: int) {
    && n > 0 && position + n <= length && first <= last
    && first * SECTOR_SIZE <= position < (first + 1) * SECTOR_SIZE
    && last * SECTOR_SIZE < position + n <= (last + 1) * SECTOR_SIZE
    && end == if (last + 1) * SECTOR_SIZE <= length then (last + 1) * SECTOR_SIZE else length
  }

  lemma SpanBounds(length: nat, position: nat, n: nat, first: nat, last: nat, end: int)
    requires Spans(length, position, n, first, last, end)
    ensures first <= last && first * SECTOR_SIZE <= position && position + n <= end <= length
    ensures end - first * SECTOR_SIZE <= (1 + last - first) * SECTOR_SIZE
  {
  }

  /** Bytes lo .. hi - 1 of c, in a buffer that begins with byte `base`. */
  ghost predicate Holds<T>(b: seq<T>, c: seq<T>, base: nat, lo: int, hi: int) {
    base <= lo <= hi <= |c| && hi - base <= |b| && b[lo - base..hi - base] == c[lo..hi]
  }

  lemma HoldsNone<T>(b: seq<T>, c: seq<T>, base: nat)
    requires base <= |c|
    ensures Holds(b, c, base, base, base)
  {
  }

  lemma HoldsEnd<T>(b: seq<T>, c: seq<T>, base: nat, end: nat)
    requires base <= end <= |c| && end - base <= |b|
    ensures Holds(b, c, base, end, end)
  {
  }

  /** Read in as part of a slice. */
  lemma HoldsPart<T>(b: seq<T>, offset: nat, len: nat, c: seq<T>, base: nat, lo: nat, hi: nat)
    requires offset + len <= |b| && base + offset + len <= |c| && base + offset <= lo <= hi <= base + offset + len
    requires b[offset..offset + len] == c[base + offset..base + offset + len]
    ensures Holds(b, c, base, lo, hi)
  {
    Inner(b, offset, len, c, base + offset, lo - base - offset, hi - base - offset);
  }

  /** Not touched by a change from `offset` on. */
  lemma HoldsStill<T>(was: seq<T>, b: seq<T>, offset: nat, c: seq<T>, base: nat, hi: nat)
    requires Holds(was, c, base, base, hi) && offset <= |was| && |b| == |was| && b[..offset] == was[..offset]
    requires hi - base <= offset
    ensures Holds(b, c, base, base, hi)
  {
    var u, v := b[0..hi - base], was[0..hi - base];
    forall i | 0 <= i < |u| ensures u[i] == v[i] {
      assert u[i] == b[..offset][i] == was[..offset][i];
    }
  }

  lemma SpanOf(h: Header, position: nat, n: nat)
    requires ValidHeader(h) && n > 0 && position + n <= h.numBytes
    ensures var (first, last) := (position / SECTOR_SIZE, (position + n - 1) / SECTOR_SIZE);
            && first * SECTOR_SIZE < h.numBytes && first <= last < h.numSectors
            && Spans(h.numBytes, position, n, first, last, InFile(h, first, 1 + last - first))
  {
    hide Distinct;
  }

  /** Part of an equal slice. */
  lemma Inner<T>(b: seq<T>, offset: nat, len: nat, c: seq<T>, at: nat, lo: nat, hi: nat)
    requires offset + len <= |b| && at + len <= |c| && lo <= hi <= len
    requires b[offset..offset + len] == c[at..at + len]
    ensures b[offset + lo..offset + hi] == c[at + lo..at + hi]
  {
    var u, v := b[offset + lo..offset + hi], c[at + lo..at + hi];
    forall i | 0 <= i < |u| ensures u[i] == v[i] {
      assert b[offset..offset + len][lo + i] == c[at..at + len][lo + i];
    }
  }

  lemma Window<T>(f: seq<T>, p: nat, mid: seq<T>, lo: nat, hi: nat)
    requires lo <= p && p + |mid| <= hi <= |f|
    ensures (f[..p] + mid + f[p + |mid|..])[lo..hi] == f[lo..p] + mid + f[p + |mid|..hi]
  {
    var whole := f[..p] + mid + f[p + |mid|..];
    var u, v := whole[lo..hi], f[lo..p] + mid + f[p + |mid|..hi];
    forall i | 0 <= i < |u| ensures u[i] == v[i] {
      assert u[i] == whole[lo + i];
    }
  }

  /** A sequence with `from` written over it. */
  ghost function Overlaid<T>(was: seq<T>, start: nat, from: seq<T>): seq<T>
    requires start + |from| <= |was|
  {
    was[..start] + from + was[start + |from|..]
  }

  /** The buffer of WriteAt once the data lies between what was read in. */
  lemma Surrounded<T>(was: seq<T>, b: seq<T>, c: seq<T>, from: seq<T>, position: nat, base: nat, end: nat)
    requires base <= position && position + |from| <= end <= |c| && end - base <= |was|
    requires Holds(was, c, base, base, position) && Holds(was, c, base, position + |from|, end)
    requires b == Overlaid(was, position - base, from)
    ensures b[..end - base] == c[base..position] + from + c[position + |from|..end]
  {
    Window(was, position - base, from, 0, end - base);
    assert b[0..end - base] == b[..end - base] && was[0..position - base] == was[..position - base];
  }

  /** The buffer's first `count` sectors are on the disk. */
  ghost predicate Stored(d: Image, h: Header, first: nat, count: nat, buf: seq<byte>)
    requires ValidHeader(h) && first + count <= h.numSectors && count * SECTOR_SIZE <= |buf|
  {
    buf[..count * SECTOR_SIZE] == RawBytes(d, h, first, count)
  }

  /** Only the file's sectors `first` .. `next` - 1 have changed. */
  ghost predicate Others(d: Image, d': Image, h: Header, first: nat, next: nat)
    requires first <= next <= |h.dataSectors|
  {
    forall s :: 0 <= s < NUM_SECTORS && s !in h.dataSectors[first..next] ==> d'[s] == d[s]
  }

  lemma NoneStored(d: Image, h: Header, first: nat, buf: seq<byte>)
    requires ValidHeader(h) && first <= h.numSectors
    ensures first <= |h.dataSectors| && Stored(d, h, first, 0, buf) && Others(d, d, h, first, first)
    ensures h.numSectors <= |h.dataSectors|
  {
  }

  lemma AllStored(d: Image, d': Image, h: Header, first: nat, last: nat, buf: seq<byte>)
    requires ValidHeader(h) && first <= last < h.numSectors <= |h.dataSectors|
    requires |buf| == (1 + last - first) * SECTOR_SIZE
    requires Stored(d', h, first, 1 + last - first, buf) && Others(d, d', h, first, last + 1)
    ensures buf == RawBytes(d', h, first, 1 + last - first)
    ensures forall s :: 0 <= s < NUM_SECTORS && s !in h.dataSectors[first..last + 1] ==> d'[s] == d[s]
  {
    hide RawBytes, ValidHeader;
    assert buf[..|buf|] == buf;
  }

  lemma SectorStart(h: Header, i: nat)
    requires ValidHeader(h) && i < h.numSectors
    ensures i * SECTOR_SIZE < h.numBytes && i * SECTOR_SIZE / SECTOR_SIZE == i
  {
    hide Distinct;
  }

  lemma StoredOne(d: Image, d': Image, h: Header, first: nat, i: nat, buf: seq<byte>)
    requires ValidHeader(h) && first <= i < h.numSectors && (1 + i - first) * SECTOR_SIZE <= |buf|
    requires 0 <= h.dataSectors[i] < NUM_SECTORS && Stored(d, h, first, i - first, buf)
    requires d' == d[h.dataSectors[i] := buf[(i - first) * SECTOR_SIZE..(i - first) * SECTOR_SIZE + SECTOR_SIZE]]
    ensures Stored(d', h, first, 1 + i - first, buf)
  {
    hide RawBytes, ValidHeader;
    var k := (i - first) * SECTOR_SIZE;
    WroteOne(d, d', h, first, i, buf[k..k + SECTOR_SIZE]);
    Grow(buf, k, SECTOR_SIZE, RawBytes(d, h, first, i - first), RawBytes(d', h, first, i - first + 1));
  }

  lemma OthersOne(d0: Image, d: Image, d': Image, h: Header, first: nat, i: nat)
    requires first <= i < |h.dataSectors| && Others(d0, d, h, first, i)
    requires forall s :: 0 <= s < NUM_SECTORS && s != h.dataSectors[i] ==> d'[s] == d[s]
    ensures Others(d0, d', h, first, i + 1)
  {
    assert h.dataSectors[first..i + 1] == h.dataSectors[first..i] + [h.dataSectors[i]];
  }

  lemma Grow<T>(b: seq<T>, k: nat, m: nat, before: seq<T>, after: seq<T>)
    requires k + m <= |b| && b[..k] == before && after == before + b[k..k + m]
    ensures b[..k + m] == after
  {
  }

  /** One more sector written. */
  lemma WroteOne(d: Image, d': Image, h: Header, first: nat, i: nat, s: Sector)
    requires ValidHeader(h) && first <= i < h.numSectors && d' == d[h.dataSectors[i] := s]
    ensures RawBytes(d', h, first, i - first + 1) == RawBytes(d, h, first, i - first) + s
  {
    forall j | first <= j < i ensures d'[h.dataSectors[j]] == d[h.dataSectors[j]] {
      SectorsApart(h, j, i);
    }
    RawFrame(d, d', h, first, i - first);
    RawStep(d', h, first, i - first);
  }

  /** Writing some of a file's sectors leaves all others alone. */
  lemma WroteOnly(d: Image, d': Image, h: Header, firstSector: nat, lastSector: nat)
    requires ValidHeader(h) && firstSector <= lastSector < h.numSectors
    requires forall s :: 0 <= s < NUM_SECTORS && s !in h.dataSectors[firstSector..lastSector + 1] ==> d'[s] == d[s]
    ensures forall i :: 0 <= i < h.numSectors && !(firstSector <= i < 1 + lastSector) ==>
                          d'[h.dataSectors[i]] == d[h.dataSectors[i]]
    ensures forall s :: 0 <= s < NUM_SECTORS && s !in Data(h) ==> d'[s] == d[s]
  {
    forall i | 0 <= i < h.numSectors && !(firstSector <= i < 1 + lastSector)
      ensures d'[h.dataSectors[i]] == d[h.dataSectors[i]]
    {
      forall j | firstSector <= j < 1 + lastSector ensures h.dataSectors[i] != h.dataSectors[j] {
        if i < j { SectorsApart(h, i, j); } else { SectorsApart(h, j, i); }
      }
    }
    TakeSlice(h.dataSectors, h.numSectors, firstSector, lastSector + 1);
  }

  lemma RawSpan(d: Image, h: Header, first: nat, count: nat, position: nat, n: nat)
    requires ValidHeader(h) && first + count <= h.numSectors && position + n <= h.numBytes
    requires first * SECTOR_SIZE <= position && position + n <= (first + count) * SECTOR_SIZE
    ensures var from := position - first * SECTOR_SIZE;
            RawBytes(d, h, first, count)[from..from + n] == FileBytes(d, h)[position..position + n]
  {
    hide FileBytes, RawBytes, ValidHeader;
    forall k | position <= k < position + n
      ensures RawBytes(d, h, first, count)[k - first * SECTOR_SIZE] == FileBytes(d, h)[k]
    {
      RawFile(d, h, first, count, k);
    }
    var from := position - first * SECTOR_SIZE;
    var u, v := RawBytes(d, h, first, count)[from..from + n], FileBytes(d, h)[position..position + n];
    forall i | 0 <= i < n ensures u[i] == v[i] {
      assert u[i] == RawBytes(d, h, first, count)[position + i - first * SECTOR_SIZE];
    }
  }

  lemma SpliceFits<T>(f: seq<T>, position: nat, data: seq<T>, n: nat)
    requires n == Clip(|f|, |data|, position) > 0
    ensures Splice(f, position, data) == f[..position] + data[..n] + f[position + n..]
  {
  }

  /** What the written sectors add up to. */
  lemma WriteDone(d: Image, d': Image, h: Header, from: seq<byte>, position: nat,
                  firstSector: nat, lastSector: nat, end: int, buf: seq<byte>)
    requires ValidHeader(h) && Spans(h.numBytes, position, |from|, firstSector, lastSector, end)
    requires firstSector <= lastSector < h.numSectors
    requires buf == RawBytes(d', h, firstSector, 1 + lastSector - firstSector)
    requires buf[..end - firstSector * SECTOR_SIZE]
          == FileBytes(d, h)[firstSector * SECTOR_SIZE..position] + from + FileBytes(d, h)[position + |from|..end]
    requires forall i :: 0 <= i < h.numSectors && !(firstSector <= i < 1 + lastSector) ==>
                           d'[h.dataSectors[i]] == d[h.dataSectors[i]]
    ensures FileBytes(d', h) == FileBytes(d, h)[..position] + from + FileBytes(d, h)[position + |from|..]
  {
    hide FileBytes, RawBytes;
    var base := firstSector * SECTOR_SIZE;
    var f := FileBytes(d, h)[..position] + from + FileBytes(d, h)[position + |from|..];
    Window(FileBytes(d, h), position, from, base, end);
    assert f[..base] == FileBytes(d, h)[..base];
    assert f[end..] == FileBytes(d, h)[end..];
    Rewritten(d, d', h, firstSector, 1 + lastSector - firstSector, f);
  }

  /** No sector outside the file has changed. */
  ghost predicate OnlyWithin(d: Image, d': Image, h: Header) {
    0 <= h.numSectors <= |h.dataSectors| && forall s :: 0 <= s < NUM_SECTORS && s !in Data(h) ==> d'[s] == d[s]
  }

  lemma NothingWritten(d: Image, h: Header)
    requires ValidHeader(h)
    ensures OnlyWithin(d, d, h)
  {
  }

  lemma MoreWritten(d: Image, d': Image, d'': Image, h: Header)
    requires OnlyWithin(d, d', h)
    requires ValidHeader(h) && forall s :: 0 <= s < NUM_SECTORS && s !in Data(h) ==> d''[s] == d'[s]
    ensures OnlyWithin(d, d'', h)
  {
  }

  lemma AllWithin(d: Image, d': Image, h: Header)
    requires OnlyWithin(d, d', h) && ValidHeader(h)
    ensures forall s :: 0 <= s < NUM_SECTORS && s !in Data(h) ==> d'[s] == d[s]
  {
  }

  lemma EmptySplice(f: seq<byte>, position: nat)
    ensures Splice(f, position, []) == f && Clip(|f|, 0, position) == 0
  {
  }

  function Concat(chunks: seq<seq<byte>>): seq<byte> {
    if chunks == [] then [] else Concat(chunks[..|chunks| - 1]) + chunks[|chunks| - 1]
  }
}
