/** Allocating and freeing the data sectors of a file (filesys/filehdr.cc). */
module FileHeaders {
  import opened Base
  import opened Bytes
  import opened DiskImage
  import opened Bitmaps
  import opened OpenFiles

  function SetAll(bits: seq<bool>, sectors: seq<int>): (r: seq<bool>)
    ensures |r| == |bits|
  {
    seq(|bits|, i requires 0 <= i < |bits| => bits[i] || i in sectors)
  }

  function ClearAll(bits: seq<bool>, sectors: seq<int>): (r: seq<bool>)
    ensures |r| == |bits|
  {
    seq(|bits|, i requires 0 <= i < |bits| => bits[i] && i !in sectors)
  }

  /** `data` is what repeated first-fit allocation from `bits` hands out. */
  ghost predicate FirstFit(bits: seq<bool>, data: seq<int>) {
    forall i :: 0 <= i < |data| ==> data[i] >= 0 && IsFirstClear(SetAll(bits, data[..i]), data[i])
  }

  /** First-fit allocation hands out distinct sectors that were free. */
  lemma FirstFitFresh(bits: seq<bool>, data: seq<int>)
    requires FirstFit(bits, data)
    ensures Distinct(data)
    ensures forall i :: 0 <= i < |data| ==> 0 <= data[i] < |bits| && !bits[data[i]]
  {
    forall i | 0 <= i < |data| ensures 0 <= data[i] < |bits| && !bits[data[i]] && data[i] !in data[..i] {
      assert !SetAll(bits, data[..i])[data[i]];
    }
    forall i, j | 0 <= i < j < |data| ensures data[i] != data[j] {
      assert data[i] == data[..j][i];
    }
  }

  /** Freeing exactly what was allocated gives the old map back. */
  lemma ClearUndoesSet(bits: seq<bool>, sectors: seq<int>)
    requires forall s :: s in sectors && 0 <= s < |bits| ==> !bits[s]
    ensures ClearAll(SetAll(bits, sectors), sectors) == bits
  {
  }

  class FileHeader {
    var numBytes: int
    var numSectors: int
    const dataSectors: array<int>

    ghost predicate Valid()
      reads this
    {
      dataSectors.Length == NUM_DIRECT
    }

    ghost function Value(): Header
      reads this, dataSectors
    {
      Header(numBytes, numSectors, dataSectors[..])
    }

    /** A header object; its table holds whatever was there before. */
    constructor (junk: seq<int>)
      requires |junk| == NUM_DIRECT && forall i :: 0 <= i < NUM_DIRECT ==> IsInt32(junk[i])
      ensures Valid() && fresh(dataSectors) && Fits(Value())
    {
      numBytes, numSectors := 0, 0;
      dataSectors := new int[NUM_DIRECT](i requires 0 <= i < NUM_DIRECT => junk[i]);
    }

    /** FileHeader::FetchFrom. */
    method FetchFrom(disk: SynchDisk, sector: nat)
      requires Valid() && sector < NUM_SECTORS
      modifies this, dataSectors
      ensures Valid() && Value() == DecodeHeader(disk.sectors[sector])
    {
      var raw := new byte[SECTOR_SIZE];
      disk.ReadSector(sector, raw, 0);
      assert raw[..] == disk.sectors[sector];
      var h := DecodeHeader(raw[..]);
      numBytes, numSectors := h.numBytes, h.numSectors;
      forall i | 0 <= i < NUM_DIRECT {
        dataSectors[i] := h.dataSectors[i];
      }
      assert dataSectors[..] == h.dataSectors;
    }

    /** FileHeader::WriteBack. */
    method WriteBack(disk: SynchDisk, sector: nat)
      requires Valid() && Fits(Value()) && sector < NUM_SECTORS
      modifies disk
      ensures disk.sectors == old(disk.sectors)[sector := EncodeHeader(Value())]
    {
      var s := EncodeHeader(Header(numBytes, numSectors, dataSectors[..]));
      var raw := new byte[SECTOR_SIZE](i requires 0 <= i < SECTOR_SIZE => s[i]);
      assert raw[0..SECTOR_SIZE] == s;
      disk.WriteSector(sector, raw, 0);
    }

    /** FileHeader::Allocate: succeeds exactly when enough sectors are free, and
        never runs out after that test. */
    method Allocate(freeMap: Bitmap, fileSize: nat) returns (ok: bool)
      requires Valid() && Fits(Value()) && freeMap.Valid() && freeMap.numBits == NUM_SECTORS
      requires fileSize <= MAX_FILE_SIZE
      modifies this, dataSectors, freeMap.words
      ensures Valid() && Fits(Value())
      ensures numBytes == fileSize && numSectors == DivRoundUp(fileSize, SECTOR_SIZE) <= NUM_DIRECT
      ensures ok <==> numSectors <= CountClear(old(freeMap.Bits()))
      ensures !ok ==> freeMap.Bits() == old(freeMap.Bits())
      ensures ok ==> FirstFit(old(freeMap.Bits()), dataSectors[..numSectors])
                     && freeMap.Bits() == SetAll(old(freeMap.Bits()), dataSectors[..numSectors])
    {
      hide FirstFit, SetAll, CountClear, BitsOf, IsFirstClear;
      numBytes := fileSize;
      numSectors := DivRoundUp(fileSize, SECTOR_SIZE);
      ghost var bits := freeMap.Bits();
      var clear := freeMap.NumClear();
      if clear < numSectors {
        return false;
      }
      FirstFitNone(bits);
      assert dataSectors[..0] == [];
      for i := 0 to numSectors
        invariant Valid() && Fits(Value())
        invariant numBytes == fileSize && numSectors == DivRoundUp(fileSize, SECTOR_SIZE)
        invariant CountClear(freeMap.Bits()) == clear - i
        invariant freeMap.Bits() == SetAll(bits, dataSectors[..i])
        invariant FirstFit(bits, dataSectors[..i])
      {
        ghost var map', done := freeMap.Bits(), dataSectors[..i];
        var s := freeMap.FindAndSet();
        FoundClear(map', s);
        dataSectors[i] := s;
        assert dataSectors[..i + 1] == done + [s];
        FirstFitStep(bits, done, s);
      }
      return true;
    }

    /** FileHeader::Deallocate; the ASSERT that every sector was marked holds when
        they are distinct and marked. */
    method Deallocate(freeMap: Bitmap)
      requires Valid() && ValidHeader(Value()) && freeMap.Valid() && freeMap.numBits == NUM_SECTORS
      requires dataSectors as object != freeMap.words
      requires forall s :: s in Data(Value()) ==> 0 <= s < NUM_SECTORS && freeMap.Bits()[s]
      modifies freeMap.words
      ensures freeMap.Bits() == ClearAll(old(freeMap.Bits()), Data(Value()))
    {
      ghost var bits := freeMap.Bits();
      for i := 0 to numSectors
        invariant freeMap.Bits() == ClearAll(bits, dataSectors[..i])
      {
        assert dataSectors[i] !in dataSectors[..i] by {
          forall j | 0 <= j < i ensures dataSectors[j] != dataSectors[i] { SectorsApart(Value(), j, i); }
        }
        assert dataSectors[i] == Data(Value())[i];
        var marked := freeMap.Test(dataSectors[i]);
        assert marked;
        freeMap.Clear(dataSectors[i]);
        assert dataSectors[..i + 1] == dataSectors[..i] + [dataSectors[i]];
      }
    }
  }

  lemma FirstFitNone(bits: seq<bool>)
    ensures FirstFit(bits, []) && SetAll(bits, []) == bits
  {
  }

  /** With a clear bit left the search finds one, and then one fewer is left. */
  lemma FoundClear(bits: seq<bool>, s: int)
    requires CountClear(bits) > 0 && IsFirstClear(bits, s)
    ensures 0 <= s < |bits| && CountClear(bits[s := true]) == CountClear(bits) - 1
  {
    if s == -1 {
      NoneClear(bits);
    } else {
      CountAfterSet(bits, s);
    }
  }

  lemma FirstFitStep(bits: seq<bool>, done: seq<int>, s: int)
    requires FirstFit(bits, done) && s >= 0 && IsFirstClear(SetAll(bits, done), s)
    ensures FirstFit(bits, done + [s])
    ensures SetAll(bits, done)[s := true] == SetAll(bits, done + [s])
  {
    forall i | 0 <= i < |done| + 1 ensures (done + [s])[..i] == done[..i] {}
  }
}
