/** The masks, shifts and ors of the partial loads and stores on 32 bits, as machine/mipssim.cc writes them. */
module WordMasks {
  import opened ByteInts
  import opened Bytes
  import opened MipsMemory

  function Low1(a: bv32, b: bv32): bv32 { (a & 0xff) | (b << 8) }

  function Low2(a: bv32, b: bv32): bv32 { (a & 0xffff) | (b << 16) }

  function Low3(a: bv32, b: bv32): bv32 { (a & 0xffffff) | (b << 24) }

  /** Right shifts of a C int: copies of the sign bit come in from the left. */
  function Sar8(w: bv32): bv32 { if w & 0x8000_0000 == 0 then w >> 8 else (w >> 8) | 0xff00_0000 }

  function Sar16(w: bv32): bv32 { if w & 0x8000_0000 == 0 then w >> 16 else (w >> 16) | 0xffff_0000 }

  function Sar24(w: bv32): bv32 { if w & 0x8000_0000 == 0 then w >> 24 else (w >> 24) | 0xffff_ff00 }

  function High1(a: bv32, b: bv32): bv32 { (a & 0xff00_0000) | (Sar8(b) & 0xff_ffff) }

  function High2(a: bv32, b: bv32): bv32 { (a & 0xffff_0000) | (Sar16(b) & 0xffff) }

  function High3(a: bv32, b: bv32): bv32 { (a & 0xffff_ff00) | (Sar24(b) & 0xff) }

  /** The cases of LWL and SWR. */
  function KeepLowBits(a: bv32, b: bv32, n: int): bv32 {
    if n == 0 then b else if n == 1 then Low1(a, b) else if n == 2 then Low2(a, b) else Low3(a, b)
  }

  /** The cases of LWR and SWL. */
  function KeepHighBits(a: bv32, b: bv32, n: int): bv32 {
    if n == 0 then b else if n == 1 then High1(a, b) else if n == 2 then High2(a, b) else High3(a, b)
  }

  // ----- byte by byte -----

  function ByteAt(w: bv32, k: int): byte {
    if k == 0 then (w & 0xff) as byte
    else if k == 1 then ((w >> 8) & 0xff) as byte
    else if k == 2 then ((w >> 16) & 0xff) as byte
    else ((w >> 24) & 0xff) as byte
  }

  lemma Low1Bytes(a: bv32, b: bv32)
    ensures ByteAt(Low1(a, b), 0) == ByteAt(a, 0) && ByteAt(Low1(a, b), 1) == ByteAt(b, 0)
    ensures ByteAt(Low1(a, b), 2) == ByteAt(b, 1) && ByteAt(Low1(a, b), 3) == ByteAt(b, 2)
  {
  }

  lemma Low2Bytes(a: bv32, b: bv32)
    ensures ByteAt(Low2(a, b), 0) == ByteAt(a, 0) && ByteAt(Low2(a, b), 1) == ByteAt(a, 1)
    ensures ByteAt(Low2(a, b), 2) == ByteAt(b, 0) && ByteAt(Low2(a, b), 3) == ByteAt(b, 1)
  {
  }

  lemma Low3Bytes(a: bv32, b: bv32)
    ensures ByteAt(Low3(a, b), 0) == ByteAt(a, 0) && ByteAt(Low3(a, b), 1) == ByteAt(a, 1)
    ensures ByteAt(Low3(a, b), 2) == ByteAt(a, 2) && ByteAt(Low3(a, b), 3) == ByteAt(b, 0)
  {
  }

  function Join8(a: bv32, c: bv32): bv32 { (a & 0xff00_0000) | (c & 0xff_ffff) }

  lemma Join8Bytes(a: bv32, c: bv32)
    ensures ByteAt(Join8(a, c), 0) == ByteAt(c, 0) && ByteAt(Join8(a, c), 1) == ByteAt(c, 1)
    ensures ByteAt(Join8(a, c), 2) == ByteAt(c, 2) && ByteAt(Join8(a, c), 3) == ByteAt(a, 3)
  {
  }

  lemma Sar8Bytes(b: bv32)
    ensures ByteAt(Sar8(b), 0) == ByteAt(b, 1) && ByteAt(Sar8(b), 1) == ByteAt(b, 2)
        && ByteAt(Sar8(b), 2) == ByteAt(b, 3)
  {
  }

  lemma High1Bytes(a: bv32, b: bv32)
    ensures ByteAt(High1(a, b), 0) == ByteAt(b, 1) && ByteAt(High1(a, b), 1) == ByteAt(b, 2)
    ensures ByteAt(High1(a, b), 2) == ByteAt(b, 3) && ByteAt(High1(a, b), 3) == ByteAt(a, 3)
  {
    assert High1(a, b) == Join8(a, Sar8(b));
    hide High1, Join8, Sar8, ByteAt;
    Join8Bytes(a, Sar8(b));
    Sar8Bytes(b);
  }

  lemma High2Bytes(a: bv32, b: bv32)
    ensures ByteAt(High2(a, b), 0) == ByteAt(b, 2) && ByteAt(High2(a, b), 1) == ByteAt(b, 3)
    ensures ByteAt(High2(a, b), 2) == ByteAt(a, 2) && ByteAt(High2(a, b), 3) == ByteAt(a, 3)
  {
  }

  lemma High3Bytes(a: bv32, b: bv32)
    ensures ByteAt(High3(a, b), 0) == ByteAt(b, 3) && ByteAt(High3(a, b), 1) == ByteAt(a, 1)
    ensures ByteAt(High3(a, b), 2) == ByteAt(a, 2) && ByteAt(High3(a, b), 3) == ByteAt(a, 3)
  {
  }

  // ----- as numbers -----

  function Num(w: bv32, k: int): (x: int)
    ensures IsByte(x)
  {
    IntOf(ByteAt(w, k))
  }

  /** The unsigned number 32 bits stand for, byte by byte. */
  function WordInt(w: bv32): int { Word4(Num(w, 0), Num(w, 1), Num(w, 2), Num(w, 3)) }

  /** The source's shift-up expressions are KeepLow. */
  lemma KeepLowIsBits(a: bv32, b: bv32, n: int)
    requires 0 <= n < 4
    ensures WordInt(KeepLowBits(a, b, n)) == KeepLow(WordInt(a), WordInt(b), n)
  {
    hide KeepLow, Word4, ByteAt, IntOf, Low1, Low2, Low3;
    if n == 0 {
      KeepNone(WordInt(a), WordInt(b));
    } else {
      KeepLowWord4(Num(a, 0), Num(a, 1), Num(a, 2), Num(a, 3), Num(b, 0), Num(b, 1), Num(b, 2), Num(b, 3));
      Low1Bytes(a, b);
      Low2Bytes(a, b);
      Low3Bytes(a, b);
    }
  }

  /** The source's shift-down expressions are KeepHigh. */
  lemma KeepHighIsBits(a: bv32, b: bv32, n: int)
    requires 0 <= n < 4
    ensures WordInt(KeepHighBits(a, b, n)) == KeepHigh(WordInt(a), WordInt(b), n)
  {
    hide KeepHigh, Word4, ByteAt, IntOf, High1, High2, High3;
    if n == 0 {
      KeepNone(WordInt(a), WordInt(b));
    } else {
      KeepHighWord4(Num(a, 0), Num(a, 1), Num(a, 2), Num(a, 3), Num(b, 0), Num(b, 1), Num(b, 2), Num(b, 3));
      High1Bytes(a, b);
      High2Bytes(a, b);
      High3Bytes(a, b);
    }
  }
}
