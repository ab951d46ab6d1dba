/** Eight bits as a number and back, bit by bit. */
module ByteInts {

  function Pick(c: bool, b: bv8): bv8 {
    if c then b else 0
  }

  function FromBits(b0: bool, b1: bool, b2: bool, b3: bool, b4: bool, b5: bool, b6: bool, b7: bool): bv8 {
    Pick(b0, 1) | Pick(b1, 2) | Pick(b2, 4) | Pick(b3, 8) | Pick(b4, 16) | Pick(b5, 32) | Pick(b6, 64) | Pick(b7, 128)
  }

  predicate Has(b: bv8, m: bv8) {
    b & m != 0
  }

  function Weight(c: bool, w: nat): nat {
    if c then w else 0
  }

  predicate Odd(x: nat) {
    x % 2 == 1
  }

  function Half(x: nat): nat {
    x / 2
  }

  /** The low eight bits of a number. */
  function ByteOf(x: nat): bv8 {
    var x1 := Half(x); var x2 := Half(x1); var x3 := Half(x2); var x4 := Half(x3);
    var x5 := Half(x4); var x6 := Half(x5); var x7 := Half(x6);
    FromBits(Odd(x), Odd(x1), Odd(x2), Odd(x3), Odd(x4), Odd(x5), Odd(x6), Odd(x7))
  }

  function IntOf(b: bv8): (x: nat)
    ensures x < 256
  {
    Weight(Has(b, 1), 1) + Weight(Has(b, 2), 2) + Weight(Has(b, 4), 4) + Weight(Has(b, 8), 8)
    + Weight(Has(b, 16), 16) + Weight(Has(b, 32), 32) + Weight(Has(b, 64), 64) + Weight(Has(b, 128), 128)
  }

  lemma BitsBack(b0: bool, b1: bool, b2: bool, b3: bool, b4: bool, b5: bool, b6: bool, b7: bool)
    ensures var b := FromBits(b0, b1, b2, b3, b4, b5, b6, b7);
            && Has(b, 1) == b0 && Has(b, 2) == b1 && Has(b, 4) == b2 && Has(b, 8) == b3
            && Has(b, 16) == b4 && Has(b, 32) == b5 && Has(b, 64) == b6 && Has(b, 128) == b7
  {
  }

  lemma Split(x: nat)
    ensures x == Weight(Odd(x), 1) + 2 * Half(x)
  {
  }

  lemma Nibble(x: nat)
    ensures var x1 := Half(x); var x2 := Half(x1); var x3 := Half(x2);
            x == Weight(Odd(x), 1) + Weight(Odd(x1), 2) + Weight(Odd(x2), 4) + Weight(Odd(x3), 8) + 16 * Half(x3)
  {
    hide Odd, Half;
    var x1 := Half(x); var x2 := Half(x1); var x3 := Half(x2);
    Split(x);
    Split(x1);
    Split(x2);
    Split(x3);
  }

  lemma ByteInt(x: nat)
    requires x < 256
    ensures IntOf(ByteOf(x)) == x
  {
    hide FromBits, Has, IntOf, Weight, Odd, Half;
    var x1 := Half(x); var x2 := Half(x1); var x3 := Half(x2); var x4 := Half(x3);
    var x5 := Half(x4); var x6 := Half(x5); var x7 := Half(x6);
    Nibble(x);
    Nibble(x4);
    Sum8(Odd(x), Odd(x1), Odd(x2), Odd(x3), Odd(x4), Odd(x5), Odd(x6), Odd(x7));
  }

  lemma Sum8(b0: bool, b1: bool, b2: bool, b3: bool, b4: bool, b5: bool, b6: bool, b7: bool)
    ensures IntOf(FromBits(b0, b1, b2, b3, b4, b5, b6, b7))
         == Weight(b0, 1) + Weight(b1, 2) + Weight(b2, 4) + Weight(b3, 8)
            + 16 * (Weight(b4, 1) + Weight(b5, 2) + Weight(b6, 4) + Weight(b7, 8))
  {
    BitsBack(b0, b1, b2, b3, b4, b5, b6, b7);
    hide FromBits, Has;
  }
}

/** Little-endian machine words as bytes, as they lie on the disk and on the wire. */
module Bytes {
  import opened ByteInts

  type byte = bv8

  const TWO_TO_32 := 0x1_0000_0000
  const TWO_TO_31 := 0x8000_0000

  /** A C `int`. */
  predicate IsInt32(i: int) {
    -TWO_TO_31 <= i < TWO_TO_31
  }

  // ----- signed integers -----

  function IntBytes(i: int): (b: seq<byte>)
    requires IsInt32(i)
    ensures |b| == 4
  {
    var u := if i < 0 then i + TWO_TO_32 else i;
    [ByteOf(u % 256), ByteOf(u / 256 % 256), ByteOf(u / 65536 % 256), ByteOf(u / 16777216 % 256)]
  }

  function BytesInt(b: seq<byte>): (i: int)
    requires |b| == 4
    ensures IsInt32(i)
  {
    var u := IntOf(b[0]) + 256 * IntOf(b[1]) + 65536 * IntOf(b[2]) + 16777216 * IntOf(b[3]);
    if u >= TWO_TO_31 then u - TWO_TO_32 else u
  }

  lemma Digits(u: int)
    requires 0 <= u < TWO_TO_32
    ensures u % 256 + 256 * (u / 256 % 256) + 65536 * (u / 65536 % 256) + 16777216 * (u / 16777216 % 256) == u
  {
    assert u / 65536 == u / 256 / 256;
    assert u / 16777216 == u / 65536 / 256;
  }

  /** Reading back what was stored gives the same integer. */
  lemma IntRoundTrip(i: int)
    requires IsInt32(i)
    ensures BytesInt(IntBytes(i)) == i
  {
    hide ByteOf, IntOf;
    var u := if i < 0 then i + TWO_TO_32 else i;
    Digits(u);
    ByteInt(u % 256);
    ByteInt(u / 256 % 256);
    ByteInt(u / 65536 % 256);
    ByteInt(u / 16777216 % 256);
  }

  // ----- unsigned words -----

  function WordBytes(w: bv32): (b: seq<byte>)
    ensures |b| == 4
  {
    [(w & 0xff) as byte, ((w >> 8) & 0xff) as byte, ((w >> 16) & 0xff) as byte, ((w >> 24) & 0xff) as byte]
  }

  function BytesWord(b: seq<byte>): bv32
    requires |b| == 4
  {
    (b[0] as bv32) | (b[1] as bv32 << 8) | (b[2] as bv32 << 16) | (b[3] as bv32 << 24)
  }

  lemma WordRoundTrip(w: bv32)
    ensures BytesWord(WordBytes(w)) == w
  {
  }

  // ----- arrays of either -----

  function PackInts(a: seq<int>): (b: seq<byte>)
    requires forall i :: 0 <= i < |a| ==> IsInt32(a[i])
    ensures |b| == 4 * |a|
  {
    seq(4 * |a|, k requires 0 <= k < 4 * |a| => IntBytes(a[k / 4])[k % 4])
  }

  function UnpackInts(b: seq<byte>): (a: seq<int>)
    requires |b| % 4 == 0
    ensures |a| == |b| / 4 && forall i :: 0 <= i < |a| ==> IsInt32(a[i])
  {
    seq(|b| / 4, i requires 0 <= i < |b| / 4 => BytesInt(b[4 * i..4 * i + 4]))
  }

  lemma IntsRoundTrip(a: seq<int>)
    requires forall i :: 0 <= i < |a| ==> IsInt32(a[i])
    ensures UnpackInts(PackInts(a)) == a
  {
    hide IntBytes, BytesInt;
    var b := PackInts(a);
    forall i | 0 <= i < |a| ensures UnpackInts(b)[i] == a[i] {
      assert b[4 * i..4 * i + 4] == IntBytes(a[i]);
      IntRoundTrip(a[i]);
    }
  }

  function PackWords(a: seq<bv32>): (b: seq<byte>)
    ensures |b| == 4 * |a|
  {
    seq(4 * |a|, k requires 0 <= k < 4 * |a| => WordBytes(a[k / 4])[k % 4])
  }

  function UnpackWords(b: seq<byte>): (a: seq<bv32>)
    requires |b| % 4 == 0
    ensures |a| == |b| / 4
  {
    seq(|b| / 4, i requires 0 <= i < |b| / 4 => BytesWord(b[4 * i..4 * i + 4]))
  }

  lemma WordsRoundTrip(a: seq<bv32>)
    ensures UnpackWords(PackWords(a)) == a
  {
    hide WordBytes, BytesWord;
    var b := PackWords(a);
    forall i | 0 <= i < |a| ensures UnpackWords(b)[i] == a[i] {
      assert b[4 * i..4 * i + 4] == WordBytes(a[i]);
      WordRoundTrip(a[i]);
    }
  }
}
