/** One bit of a 32-bit word. */
module WordBits {

  /** 1 << k */
  function Mask(k: nat): (m: bv32)
    requires k < 32
  {
    1 << (k as bv8)
  }

  function And(a: bv32, b: bv32): bv32 {
    a & b
  }

  function Or(a: bv32, b: bv32): bv32 {
    a | b
  }

  /** a & ~b */
  function AndNot(a: bv32, b: bv32): bv32 {
    a & !b
  }

  predicate Bit(w: bv32, k: nat)
    requires k < 32
  {
    And(w, Mask(k)) != 0
  }

  lemma SmallInt(k: nat)
    requires k < 32
    ensures (k as bv8) as int == k && k as bv8 < 32
  {
  }

  lemma ShiftApart(k: bv8, j: bv8)
    requires k < 32 && j < 32
    ensures (1 as bv32) << k != 0
    ensures k != j ==> And((1 as bv32) << k, 1 << j) == 0
  {
  }

  lemma MaskApart(k: nat, j: nat)
    requires k < 32 && j < 32
    ensures Mask(k) != 0
    ensures k != j ==> And(Mask(k), Mask(j)) == 0
  {
    SmallInt(k);
    SmallInt(j);
    ShiftApart(k as bv8, j as bv8);
    hide And;
  }

  lemma OrAnd(w: bv32, a: bv32, b: bv32)
    ensures And(Or(w, a), a) == a
    ensures And(a, b) == 0 ==> And(Or(w, a), b) == And(w, b)
  {
  }

  lemma AndNotAnd(w: bv32, a: bv32, b: bv32)
    ensures And(AndNot(w, a), a) == 0
    ensures And(a, b) == 0 ==> And(AndNot(w, a), b) == And(w, b)
  {
  }

  /** Or-ing in the mask of bit k sets bit k and no other. */
  lemma SetBit(w: bv32, k: nat, j: nat)
    requires k < 32 && j < 32
    ensures Bit(Or(w, Mask(k)), j) <==> j == k || Bit(w, j)
  {
    hide Mask, And, Or;
    MaskApart(k, j);
    OrAnd(w, Mask(k), Mask(j));
  }

  lemma ClearBit(w: bv32, k: nat, j: nat)
    requires k < 32 && j < 32
    ensures Bit(AndNot(w, Mask(k)), j) <==> j != k && Bit(w, j)
  {
    hide Mask, And, AndNot;
    MaskApart(k, j);
    AndNotAnd(w, Mask(k), Mask(j));
  }
}

/** The bitmap allocator (lib/bitmap.cc): bits packed into 32-bit words. */
module Bitmaps {
  import opened WordBits

  const BITS_IN_WORD := 32

  function WordsFor(n: nat): nat {
    n / BITS_IN_WORD + if n % BITS_IN_WORD > 0 then 1 else 0
  }

  /** The first `n` bits of an array of words. */
  function BitsOf(words: seq<bv32>, n: nat): (bits: seq<bool>)
    requires n <= BITS_IN_WORD * |words|
    ensures |bits| == n
  {
    seq(n, i requires 0 <= i < n => Bit(words[i / BITS_IN_WORD], i % BITS_IN_WORD))
  }

  /** Or-ing one bit into its word sets that bit and keeps all others. */
  lemma MarkWord(words: seq<bv32>, n: nat, which: nat)
    requires n <= BITS_IN_WORD * |words| && which < n
    ensures var i := which / BITS_IN_WORD;
            BitsOf(words[i := Or(words[i], Mask(which % BITS_IN_WORD))], n) == BitsOf(words, n)[which := true]
  {
    hide Bit, Mask, Or, AndNot;
    var i := which / BITS_IN_WORD;
    var words' := words[i := Or(words[i], Mask(which % BITS_IN_WORD))];
    forall j | 0 <= j < n ensures BitsOf(words', n)[j] == BitsOf(words, n)[which := true][j] {
      SetBit(words[i], which % BITS_IN_WORD, j % BITS_IN_WORD);
    }
  }

  lemma ClearWord(words: seq<bv32>, n: nat, which: nat)
    requires n <= BITS_IN_WORD * |words| && which < n
    ensures var i := which / BITS_IN_WORD;
            BitsOf(words[i := AndNot(words[i], Mask(which % BITS_IN_WORD))], n) == BitsOf(words, n)[which := false]
  {
    hide Bit, Mask, Or, AndNot;
    var i := which / BITS_IN_WORD;
    var words' := words[i := AndNot(words[i], Mask(which % BITS_IN_WORD))];
    forall j | 0 <= j < n ensures BitsOf(words', n)[j] == BitsOf(words, n)[which := false][j] {
      ClearBit(words[i], which % BITS_IN_WORD, j % BITS_IN_WORD);
    }
  }

  function CountClear(bits: seq<bool>): nat {
    if bits == [] then 0
    else CountClear(bits[..|bits| - 1]) + if bits[|bits| - 1] then 0 else 1
  }

  lemma {:induction false} CountAfterSet(bits: seq<bool>, i: nat)
    requires i < |bits| && !bits[i]
    ensures CountClear(bits[i := true]) == CountClear(bits) - 1
  {
    var init := bits[..|bits| - 1];
    if i < |bits| - 1 {
      assert bits[i := true][..|bits| - 1] == init[i := true];
      CountAfterSet(init, i);
    } else {
      assert bits[i := true][..|bits| - 1] == init;
    }
  }

  lemma {:induction false} NoneClear(bits: seq<bool>)
    requires forall i :: 0 <= i < |bits| ==> bits[i]
    ensures CountClear(bits) == 0
  {
    if bits == [] {
    } else {
      NoneClear(bits[..|bits| - 1]);
    }
  }

  /** The first clear bit of `bits`. */
  ghost predicate IsFirstClear(bits: seq<bool>, r: int) {
    && -1 <= r < |bits|
    && (r == -1 ==> forall i :: 0 <= i < |bits| ==> bits[i])
    && (r >= 0 ==> !bits[r] && forall i :: 0 <= i < r ==> bits[i])
  }

  class Bitmap {
    const numBits: nat
    const words: array<bv32>

    ghost predicate Valid() {
      words.Length == WordsFor(numBits)
    }

    ghost function Bits(): (bits: seq<bool>)
      requires Valid()
      reads words
      ensures |bits| == numBits
    {
      BitsOf(words[..], numBits)
    }

    /** Every bit starts clear. */
    constructor (numItems: nat)
      requires numItems > 0
      ensures Valid() && fresh(words) && numBits == numItems
      ensures forall i :: 0 <= i < numItems ==> !Bits()[i]
    {
      numBits := numItems;
      words := new bv32[WordsFor(numItems)](_ => 0);
      new;
      for i := 0 to numBits
        invariant fresh(words)
        invariant forall j :: 0 <= j < i ==> !Bits()[j]
      {
        Clear(i);
      }
    }

    method Mark(which: nat)
      requires Valid() && which < numBits
      modifies words
      ensures Bits() == old(Bits())[which := true]
    {
      hide Bit, Mask, Or, AndNot;
      ghost var before := words[..];
      words[which / BITS_IN_WORD] := Or(words[which / BITS_IN_WORD], Mask(which % BITS_IN_WORD));
      assert words[..] == before[which / BITS_IN_WORD := Or(before[which / BITS_IN_WORD], Mask(which % BITS_IN_WORD))];
      MarkWord(before, numBits, which);
    }

    method Clear(which: nat)
      requires Valid() && which < numBits
      modifies words
      ensures Bits() == old(Bits())[which := false]
    {
      hide Bit, Mask, Or, AndNot;
      ghost var before := words[..];
      words[which / BITS_IN_WORD] := AndNot(words[which / BITS_IN_WORD], Mask(which % BITS_IN_WORD));
      assert words[..]
          == before[which / BITS_IN_WORD := AndNot(before[which / BITS_IN_WORD], Mask(which % BITS_IN_WORD))];
      ClearWord(before, numBits, which);
    }

    method Test(which: nat) returns (isSet: bool)
      requires Valid() && which < numBits
      ensures isSet == Bits()[which]
    {
      isSet := And(words[which / BITS_IN_WORD], Mask(which % BITS_IN_WORD)) != 0;
    }

    method FindAndSet() returns (r: int)
      requires Valid()
      modifies words
      ensures IsFirstClear(old(Bits()), r)
      ensures Bits() == if r == -1 then old(Bits()) else old(Bits())[r := true]
    {
      for i := 0 to numBits
        invariant Bits() == old(Bits())
        invariant forall j :: 0 <= j < i ==> Bits()[j]
      {
        var isSet := Test(i);
        if !isSet {
          Mark(i);
          return i;
        }
      }
      return -1;
    }

    method NumClear() returns (count: nat)
      requires Valid()
      ensures count == CountClear(Bits())
    {
      hide BitsOf;
      count := 0;
      ghost var bits := Bits();
      for i := 0 to numBits
        invariant count == CountClear(bits[..i])
      {
        assert bits[..i + 1][..i] == bits[..i];
        var isSet := Test(i);
        if !isSet {
          count := count + 1;
        }
      }
      assert bits[..numBits] == bits;
    }
  }
}
