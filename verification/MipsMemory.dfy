/** The simulated machine's byte-addressed user memory behind a linear page table (machine/translate.cc). */
module MipsMemory {
  import Multiply

  const W: int := 0x1_0000_0000
  const PAGE_SIZE: int := 128
  const NUM_PHYS_PAGES: int := 128
  const MEMORY_SIZE: int := 16384

  datatype Exception = NoException | PageFaultException | ReadOnlyException | BusErrorException | AddressErrorException

  datatype Entry = Entry(physicalPage: int, valid: bool, readOnly: bool, use: bool, dirty: bool)

  predicate IsWord(x: int) { 0 <= x < W }

  predicate IsByte(b: int) { 0 <= b < 256 }

  // ----- words and their bytes, least significant first -----

  function Word4(b0: int, b1: int, b2: int, b3: int): int {
    b0 + 0x100 * b1 + 0x1_0000 * b2 + 0x100_0000 * b3
  }

  function ByteOf(x: int, j: int): int {
    if j == 0 then x % 0x100
    else if j == 1 then x / 0x100 % 0x100
    else if j == 2 then x / 0x1_0000 % 0x100
    else x / 0x100_0000 % 0x100
  }

  lemma ByteRange(x: int, j: int)
    ensures IsByte(ByteOf(x, j))
  {
  }

  lemma BytesOfWord4(b0: int, b1: int, b2: int, b3: int)
    requires IsByte(b0) && IsByte(b1) && IsByte(b2) && IsByte(b3)
    ensures var x := Word4(b0, b1, b2, b3);
      IsWord(x) && ByteOf(x, 0) == b0 && ByteOf(x, 1) == b1 && ByteOf(x, 2) == b2 && ByteOf(x, 3) == b3
  {
    var x := Word4(b0, b1, b2, b3);
    ByteSplit(x, b1 + 0x100 * b2 + 0x1_0000 * b3, b0);
    HalfSplit(x, b2 + 0x100 * b3, b0 + 0x100 * b1);
    TopSplit(x, b3, b0 + 0x100 * b1 + 0x1_0000 * b2);
    ByteSplit(b1 + 0x100 * b2 + 0x1_0000 * b3, b2 + 0x100 * b3, b1);
    ByteSplit(b2 + 0x100 * b3, b3, b2);
  }

  lemma ByteSplit(x: int, q: int, r: int)
    requires 0 <= r < 0x100 && x == q * 0x100 + r
    ensures x / 0x100 == q && x % 0x100 == r
  {
  }

  lemma HalfSplit(x: int, q: int, r: int)
    requires 0 <= r < 0x1_0000 && x == q * 0x1_0000 + r
    ensures x / 0x1_0000 == q
  {
  }

  lemma TopSplit(x: int, q: int, r: int)
    requires 0 <= r < 0x100_0000 && x == q * 0x100_0000 + r
    ensures x / 0x100_0000 == q
  {
  }

  lemma Word4OfBytes(x: int)
    requires IsWord(x)
    ensures Word4(ByteOf(x, 0), ByteOf(x, 1), ByteOf(x, 2), ByteOf(x, 3)) == x
  {
    var (q1, q2, q3) := (x / 0x100, x / 0x1_0000, x / 0x100_0000);
    assert q2 == q1 / 0x100 && q3 == q2 / 0x100;
  }

  /** Two words with the same bytes are the same. */
  lemma SameBytes(x: int, y: int)
    requires IsWord(x) && IsWord(y) && forall j :: 0 <= j < 4 ==> ByteOf(x, j) == ByteOf(y, j)
    ensures x == y
  {
    hide ByteOf;
    Word4OfBytes(x);
    Word4OfBytes(y);
  }

  // ----- the masks and shifts of the partial loads and stores -----

  /** The low n bytes of a kept, b shifted up into the rest. */
  function KeepLow(a: int, b: int, n: int): int {
    if n == 0 then b
    else if n == 1 then a % 0x100 + b * 0x100 % W
    else if n == 2 then a % 0x1_0000 + b * 0x1_0000 % W
    else a % 0x100_0000 + b * 0x100_0000 % W
  }

  /** The high n bytes of a kept, b shifted down into the rest. */
  function KeepHigh(a: int, b: int, n: int): int {
    if n == 0 then b
    else if n == 1 then a - a % 0x100_0000 + b / 0x100 % 0x100_0000
    else if n == 2 then a - a % 0x1_0000 + b / 0x1_0000 % 0x1_0000
    else a - a % 0x100 + b / 0x100_0000 % 0x100
  }

  ghost predicate IsBytes(a: seq<int>) { |a| == 4 && forall j :: 0 <= j < 4 ==> IsByte(a[j]) }

  lemma Cut(x: int, m: int, q: int, r: int)
    requires 0 <= r < m && x == q * m + r
    ensures x % m == r && x / m == q
  {
    assert x == (x / m) * m + x % m;
    Multiply.SameRemainder(m, q, r, x / m, x % m);
  }

  lemma KeepLowWord4(a0: int, a1: int, a2: int, a3: int, b0: int, b1: int, b2: int, b3: int)
    requires IsByte(a0) && IsByte(a1) && IsByte(a2) && IsByte(a3)
    requires IsByte(b0) && IsByte(b1) && IsByte(b2) && IsByte(b3)
    ensures var (a, b) := (Word4(a0, a1, a2, a3), Word4(b0, b1, b2, b3));
      && KeepLow(a, b, 1) == Word4(a0, b0, b1, b2)
      && KeepLow(a, b, 2) == Word4(a0, a1, b0, b1)
      && KeepLow(a, b, 3) == Word4(a0, a1, a2, b0)
  {
    var (a, b) := (Word4(a0, a1, a2, a3), Word4(b0, b1, b2, b3));
    Cut(a, 0x100, a1 + 0x100 * a2 + 0x1_0000 * a3, a0);
    Cut(b * 0x100, W, b3, 0x100 * b0 + 0x1_0000 * b1 + 0x100_0000 * b2);
    Cut(a, 0x1_0000, a2 + 0x100 * a3, a0 + 0x100 * a1);
    Cut(b * 0x1_0000, W, b2 + 0x100 * b3, 0x1_0000 * b0 + 0x100_0000 * b1);
    Cut(a, 0x100_0000, a3, a0 + 0x100 * a1 + 0x1_0000 * a2);
    Cut(b * 0x100_0000, W, b1 + 0x100 * b2 + 0x1_0000 * b3, 0x100_0000 * b0);
  }

  lemma KeepHighWord4(a0: int, a1: int, a2: int, a3: int, b0: int, b1: int, b2: int, b3: int)
    requires IsByte(a0) && IsByte(a1) && IsByte(a2) && IsByte(a3)
    requires IsByte(b0) && IsByte(b1) && IsByte(b2) && IsByte(b3)
    ensures var (a, b) := (Word4(a0, a1, a2, a3), Word4(b0, b1, b2, b3));
      && KeepHigh(a, b, 1) == Word4(b1, b2, b3, a3)
      && KeepHigh(a, b, 2) == Word4(b2, b3, a2, a3)
      && KeepHigh(a, b, 3) == Word4(b3, a1, a2, a3)
  {
    var (a, b) := (Word4(a0, a1, a2, a3), Word4(b0, b1, b2, b3));
    Cut(a, 0x100_0000, a3, a0 + 0x100 * a1 + 0x1_0000 * a2);
    Cut(b, 0x100, b1 + 0x100 * b2 + 0x1_0000 * b3, b0);
    Cut(b / 0x100, 0x100_0000, 0, b1 + 0x100 * b2 + 0x1_0000 * b3);
    Cut(a, 0x1_0000, a2 + 0x100 * a3, a0 + 0x100 * a1);
    Cut(b, 0x1_0000, b2 + 0x100 * b3, b0 + 0x100 * b1);
    Cut(b / 0x1_0000, 0x1_0000, 0, b2 + 0x100 * b3);
    Cut(a, 0x100, a1 + 0x100 * a2 + 0x1_0000 * a3, a0);
    Cut(b, 0x100_0000, b3, b0 + 0x100 * b1 + 0x1_0000 * b2);
    Cut(b / 0x100_0000, 0x100, 0, b3);
  }

  lemma KeepNone(a: int, b: int)
    ensures KeepLow(a, b, 0) == b && KeepHigh(a, b, 0) == b
  {
  }

  function BytesOf(x: int): (s: seq<int>)
    ensures IsBytes(s) && forall j :: 0 <= j < 4 ==> s[j] == ByteOf(x, j)
  {
    [ByteOf(x, 0), ByteOf(x, 1), ByteOf(x, 2), ByteOf(x, 3)]
  }

  lemma KeepLowBytes(a: int, b: int, n: int)
    requires IsWord(a) && IsWord(b) && 0 <= n < 4
    ensures IsWord(KeepLow(a, b, n))
    ensures forall j :: 0 <= j < 4 ==> ByteOf(KeepLow(a, b, n), j) == if j < n then ByteOf(a, j) else ByteOf(b, j - n)
  {
    hide KeepLow, Word4, ByteOf;
    Word4OfBytes(a);
    Word4OfBytes(b);
    KeepNone(a, b);
    var (s, t) := (BytesOf(a), BytesOf(b));
    KeepLowWord4(s[0], s[1], s[2], s[3], t[0], t[1], t[2], t[3]);
    if n == 0 {
      BytesOfWord4(t[0], t[1], t[2], t[3]);
    } else if n == 1 {
      BytesOfWord4(s[0], t[0], t[1], t[2]);
    } else if n == 2 {
      BytesOfWord4(s[0], s[1], t[0], t[1]);
    } else {
      BytesOfWord4(s[0], s[1], s[2], t[0]);
    }
  }

  lemma KeepHighBytes(a: int, b: int, n: int)
    requires IsWord(a) && IsWord(b) && 0 <= n < 4
    ensures IsWord(KeepHigh(a, b, n))
    ensures forall j :: 0 <= j < 4 ==>
      ByteOf(KeepHigh(a, b, n), j) == if j >= 4 - n then ByteOf(a, j) else ByteOf(b, j + n)
  {
    hide KeepHigh, Word4, ByteOf;
    Word4OfBytes(a);
    Word4OfBytes(b);
    KeepNone(a, b);
    var (s, t) := (BytesOf(a), BytesOf(b));
    KeepHighWord4(s[0], s[1], s[2], s[3], t[0], t[1], t[2], t[3]);
    if n == 0 {
      BytesOfWord4(t[0], t[1], t[2], t[3]);
    } else if n == 1 {
      BytesOfWord4(t[1], t[2], t[3], s[3]);
    } else if n == 2 {
      BytesOfWord4(t[2], t[3], s[2], s[3]);
    } else {
      BytesOfWord4(t[3], s[1], s[2], s[3]);
    }
  }

  // ----- translation -----

  /** Virtual address v may be accessed. */
  predicate Mapped(table: seq<Entry>, v: int, writing: bool) {
    && 0 <= v / PAGE_SIZE < |table|
    && var e := table[v / PAGE_SIZE];
       e.valid && !(e.readOnly && writing) && 0 <= e.physicalPage < NUM_PHYS_PAGES
  }

  /** Translate's verdict, in the order it makes its tests. */
  function Fault(table: seq<Entry>, v: int, size: int, writing: bool): Exception {
    if (size == 4 && v % 4 != 0) || (size == 2 && v % 2 != 0) then AddressErrorException
    else if !(0 <= v / PAGE_SIZE < |table|) then AddressErrorException
    else if !table[v / PAGE_SIZE].valid then PageFaultException
    else if table[v / PAGE_SIZE].readOnly && writing then ReadOnlyException
    else if !(0 <= table[v / PAGE_SIZE].physicalPage < NUM_PHYS_PAGES) then BusErrorException
    else NoException
  }

  lemma NoFault(table: seq<Entry>, v: int, size: int, writing: bool)
    ensures Fault(table, v, size, writing) == NoException <==>
      Mapped(table, v, writing) && (size == 4 ==> v % 4 == 0) && (size == 2 ==> v % 2 == 0)
  {
  }

  predicate Misaligned(v: int, size: int) { (size == 4 && v % 4 != 0) || (size == 2 && v % 2 != 0) }

  /** Which exception: an address error exactly when no page table of this size would let the access through, otherwise
      a page fault exactly when the page is not valid, otherwise a read-only exception exactly when the same read would
      not raise it, and a bus error for a frame that does not exist. */
  lemma WhichFault(table: seq<Entry>, v: int, size: int, writing: bool)
    ensures var f := Fault(table, v, size, writing);
      && (f == AddressErrorException <==>
            forall t: seq<Entry> :: |t| == |table| ==> Fault(t, v, size, writing) != NoException)
      && (f != AddressErrorException ==> 0 <= v / PAGE_SIZE < |table|)
      && (f == PageFaultException <==> f != AddressErrorException && !table[v / PAGE_SIZE].valid)
      && (f == ReadOnlyException <==>
            f != AddressErrorException && f != PageFaultException && writing && table[v / PAGE_SIZE].readOnly)
      && (f == BusErrorException <==>
            && f != AddressErrorException && f != PageFaultException && f != ReadOnlyException
            && !(0 <= table[v / PAGE_SIZE].physicalPage < NUM_PHYS_PAGES))
  {
    if !Misaligned(v, size) && 0 <= v / PAGE_SIZE < |table| {
      var repaired := table[v / PAGE_SIZE := Entry(0, true, false, false, false)];
      assert Fault(repaired, v, size, writing) == NoException;
    } else {
      forall t: seq<Entry> | |t| == |table| ensures Fault(t, v, size, writing) != NoException {}
    }
  }

  /** The physical home of virtual byte v. */
  function Place(table: seq<Entry>, v: int): (p: int)
    requires Mapped(table, v, false)
    ensures 0 <= p < MEMORY_SIZE
  {
    table[v / PAGE_SIZE].physicalPage * PAGE_SIZE + v % PAGE_SIZE
  }

  /** A multiple of m stays one modulo the page size. */
  lemma Offset4(v: int)
    requires v % 4 == 0
    ensures v % PAGE_SIZE <= PAGE_SIZE - 4
  {
    var (q, a) := (v / 128, v / 4);
    var r := a - 32 * q;
    assert v == 4 * a;
    Cut(v, 128, q, 4 * r);
  }

  lemma Offset2(v: int)
    requires v % 2 == 0
    ensures v % PAGE_SIZE <= PAGE_SIZE - 2
  {
    var (q, a) := (v / 128, v / 2);
    var r := a - 64 * q;
    assert v == 2 * a;
    Cut(v, 128, q, 2 * r);
  }

  /** An aligned access does not run off its page. */
  lemma OffsetFits(v: int, size: int, frame: int)
    requires size == 1 || (size == 2 && v % 2 == 0) || (size == 4 && v % 4 == 0)
    requires 0 <= frame < NUM_PHYS_PAGES
    ensures 0 <= frame * PAGE_SIZE + v % PAGE_SIZE && frame * PAGE_SIZE + v % PAGE_SIZE + size <= MEMORY_SIZE
  {
    if size == 4 {
      Offset4(v);
    } else if size == 2 {
      Offset2(v);
    }
  }

  /** The use and dirty bits after an access. */
  function Touched(table: seq<Entry>, v: int, writing: bool): (t: seq<Entry>)
    requires 0 <= v / PAGE_SIZE < |table|
    ensures |t| == |table|
    ensures forall u, w: bool :: Mapped(t, u, w) <==> Mapped(table, u, w)
    ensures forall u :: Mapped(table, u, false) ==> Place(t, u) == Place(table, u)
  {
    var e := table[v / PAGE_SIZE];
    table[v / PAGE_SIZE := e.(use := true, dirty := e.dirty || writing)]
  }

  lemma WriteIsRead(table: seq<Entry>, v: int)
    requires Mapped(table, v, true)
    ensures Mapped(table, v, false)
  {
  }

  /** An aligned word lies in one page, so its four bytes have consecutive homes. */
  lemma WordPlaces(table: seq<Entry>, v: int, j: int, writing: bool)
    requires IsWord(v) && v % 4 == 0 && 0 <= j < 4
    ensures (v + j) / PAGE_SIZE == v / PAGE_SIZE && v + j < W
    ensures Mapped(table, v + j, writing) <==> Mapped(table, v, writing)
    ensures Mapped(table, v, false) ==> Place(table, v + j) == Place(table, v) + j <= MEMORY_SIZE - 4 + j
  {
    assert v % PAGE_SIZE <= 124;
  }

  /** Different bytes of an unaligned word have different homes, even if both its pages share a frame. */
  lemma PlacesDiffer(table: seq<Entry>, v: int, u: int)
    requires Mapped(table, v, false) && Mapped(table, u, false) && v % PAGE_SIZE != u % PAGE_SIZE
    ensures Place(table, v) != Place(table, u)
  {
  }

  // ----- the memory itself -----

  ghost predicate IsMemory(mem: seq<int>) {
    |mem| == MEMORY_SIZE && forall p :: 0 <= p < |mem| ==> IsByte(mem[p])
  }

  function WordAt(mem: seq<int>, p: int): int
    requires 0 <= p && p + 4 <= |mem|
  {
    Word4(mem[p], mem[p + 1], mem[p + 2], mem[p + 3])
  }

  function PutWord(mem: seq<int>, p: int, x: int): (m: seq<int>)
    requires 0 <= p && p + 4 <= |mem|
    ensures |m| == |mem|
  {
    mem[p := ByteOf(x, 0)][p + 1 := ByteOf(x, 1)][p + 2 := ByteOf(x, 2)][p + 3 := ByteOf(x, 3)]
  }

  lemma PutWordAt(mem: seq<int>, p: int, x: int)
    requires 0 <= p && p + 4 <= |mem|
    ensures forall i :: 0 <= i < |mem| ==>
      PutWord(mem, p, x)[i] == if p <= i < p + 4 then ByteOf(x, i - p) else mem[i]
    ensures IsMemory(mem) ==> IsMemory(PutWord(mem, p, x))
  {
    hide ByteOf;
    forall j ensures IsByte(ByteOf(x, j)) {
      ByteRange(x, j);
    }
  }

  lemma WordAtBytes(mem: seq<int>, p: int)
    requires IsMemory(mem) && 0 <= p && p + 4 <= |mem|
    ensures IsWord(WordAt(mem, p)) && forall j :: 0 <= j < 4 ==> ByteOf(WordAt(mem, p), j) == mem[p + j]
  {
    hide ByteOf, Word4;
    assert IsByte(mem[p]) && IsByte(mem[p + 1]) && IsByte(mem[p + 2]) && IsByte(mem[p + 3]);
    BytesOfWord4(mem[p], mem[p + 1], mem[p + 2], mem[p + 3]);
  }

  /** The machine reads back the word it wrote. */
  lemma ReadBack(mem: seq<int>, p: int, x: int)
    requires IsMemory(mem) && 0 <= p && p + 4 <= |mem| && IsWord(x)
    ensures WordAt(PutWord(mem, p, x), p) == x
  {
    hide ByteOf, Word4;
    PutWordAt(mem, p, x);
    Word4OfBytes(x);
  }
}
