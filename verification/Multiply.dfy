/** Machine arithmetic: the simulator's shift-and-add multiply (machine/mipssim.cc). */
module Multiply {

  const W: int := 0x1_0000_0000
  const TOP_BIT: int := 0x8000_0000

  ghost predicate IsWord(u: int) { 0 <= u < W }

  ghost predicate IsInt(x: int) { -TOP_BIT <= x < TOP_BIT }

  /** The 32 bits of a C int read as an unsigned number, and back. */
  function Unsigned(x: int): (u: int)
    ensures IsWord(u) && (IsInt(x) ==> u == if x < 0 then x + W else x)
  {
    x % W
  }

  function Signed(u: int): (x: int)
    requires IsWord(u)
    ensures IsInt(x) && Unsigned(x) == u
  {
    if u < TOP_BIT then u else u - W
  }

  function Pow2(k: nat): (p: nat)
    ensures p > 0
  {
    if k == 0 then 1 else 2 * Pow2(k - 1)
  }

  lemma {:induction false} Pow2Top(k: nat)
    requires k <= 32
    ensures Pow2(k) <= Pow2(32) == W
    decreases 32 - k
  {
    if k < 32 {
      Pow2Top(k + 1);
    } else {
      assert Pow2(8) == 0x100;
      assert Pow2(16) == 0x1_0000;
      assert Pow2(24) == 0x100_0000;
    }
  }

  /** The low k bits of a (two's complement for a negative a). */
  function LowBits(a: int, k: nat): nat { a % Pow2(k) }

  lemma {:induction false} DivMod(a: int, m: int)
    requires m > 0
    ensures a % (2 * m) == a % 2 + 2 * ((a / 2) % m)
  {
    var (h, l) := (a / 2, a % 2);
    var (q, r) := (h / m, h % m);
    assert a == 2 * h + l && h == q * m + r;
    assert a == q * (2 * m) + (2 * r + l) by { assert 2 * (q * m) == q * (2 * m); }
    Remainder(a, 2 * m, q, 2 * r + l);
  }

  lemma Scale(k: int, m: int)
    requires k >= 1 && m > 0
    ensures k * m >= m
  {
  }

  lemma SameRemainder(m: int, q: int, r: int, q': int, r': int)
    requires 0 <= r < m && 0 <= r' < m && q * m + r == q' * m + r'
    ensures q == q' && r == r'
  {
    assert (q - q') * m == r' - r && (q' - q) * m == r - r';
    if q > q' {
      Scale(q - q', m);
    } else if q < q' {
      Scale(q' - q, m);
    }
  }

  lemma Remainder(a: int, m: int, q: int, r: int)
    requires 0 <= r < m && a == q * m + r
    ensures a % m == r
  {
    assert a == (a / m) * m + a % m;
    SameRemainder(m, q, r, a / m, a % m);
  }

  /** One round of the loop: peel the lowest bit, double the other factor. */
  lemma BitsStep(a: int, k: nat, b: int)
    requires k > 0
    ensures LowBits(a, k) * b == (a % 2) * b + LowBits(a / 2, k - 1) * (2 * b)
  {
    DivMod(a, Pow2(k - 1));
  }

  /** What the rounds still to come add: the low k bits of a, times b. */
  ghost function Owing(a: int, k: nat, b: int): int { LowBits(a, k) * b }

  lemma OwingStep(a: int, k: nat, b: int)
    requires k > 0
    ensures Owing(a, k, b) == (if a % 2 == 1 then b else 0) + Owing(a / 2, k - 1, 2 * b)
  {
    BitsStep(a, k, b);
  }

  lemma OwingLast(k: nat, b: int)
    requires k > 0
    ensures Owing(1, k, b) == b
  {
    assert Pow2(k) >= 2;
    assert LowBits(1, k) == 1;
  }

  lemma OwingAll(a: int, b: int)
    requires IsInt(a)
    ensures Owing(a, 32, b) == Unsigned(a) * b
  {
    Pow2Top(32);
  }

  lemma OwingNone(a: int, b: int)
    ensures Owing(a, 0, b) == 0
  {
  }

  lemma OwingPositive(a: int, k: nat, b: int)
    requires b >= 0
    ensures Owing(a, k, b) >= 0
  {
    NonNegative(LowBits(a, k), b);
  }

  lemma ProductFits(x: int, y: int)
    requires IsWord(x) && IsWord(y)
    ensures 0 <= x * y < W * W
  {
    NonNegative(x, y);
    ScaleUp(x, y, W);
  }

  lemma DoubleFits(b: int, i: nat)
    requires i < 32 && 0 <= b < W * Pow2(i)
    ensures 2 * b < W * Pow2(i + 1) <= W * W
  {
    Pow2Top(i + 1);
  }

  lemma PartFits(part: int, a: int, k: nat, b: int, product: int)
    requires b >= 0 && part + Owing(a, k, b) == product < W * W
    ensures part < W * W
    ensures k > 0 && a % 2 == 1 ==> part + b < W * W
  {
    hide Owing;
    OwingPositive(a, k, b);
    if k > 0 && a % 2 == 1 {
      OwingStep(a, k, b);
      OwingPositive(a / 2, k - 1, 2 * b);
    }
  }

  /** Double-word addition with the carry taken from the wrapped low sum. */
  method AddDouble(hi: int, lo: int, bHi: int, bLo: int) returns (hi': int, lo': int)
    requires IsWord(hi) && IsWord(lo) && IsWord(bHi) && IsWord(bLo)
    requires hi * W + lo + bHi * W + bLo < W * W
    ensures IsWord(hi') && IsWord(lo') && hi' * W + lo' == hi * W + lo + bHi * W + bLo
  {
    lo' := (lo + bLo) % W;
    hi' := hi;
    if lo' < bLo {
      hi' := (hi' + 1) % W;
    }
    hi' := (hi' + bHi) % W;
  }

  /** Double-word left shift by one. */
  method DoubleUp(bHi: int, bLo: int) returns (hi: int, lo: int)
    requires IsWord(bHi) && IsWord(bLo) && 2 * (bHi * W + bLo) < W * W
    ensures IsWord(hi) && IsWord(lo) && hi * W + lo == 2 * (bHi * W + bLo)
  {
    hi := (2 * bHi) % W;
    if bLo >= TOP_BIT {
      hi := hi + 1; // the shift left this bit clear, so setting it adds one
    }
    lo := (2 * bLo) % W;
  }

  /** The main loop: the full 64-bit product of the two unsigned words, although a is
      shifted arithmetically and the loop stops at a's last set bit. */
  method MultiplyWords(factor: int, b: int) returns (hi: int, lo: int)
    requires IsInt(factor) && IsWord(b)
    ensures IsWord(hi) && IsWord(lo) && hi * W + lo == Unsigned(factor) * b
  {
    hide Owing, Pow2;
    var a := factor;
    var bLo, bHi := b, 0;
    lo, hi := 0, 0;
    ghost var product := Unsigned(factor) * b;
    ProductFits(Unsigned(factor), b);
    OwingAll(factor, b);
    hide Unsigned;
    assert b < W * Pow2(0) by { PowZero(); }
    for i := 0 to 32
      invariant IsWord(hi) && IsWord(lo) && IsWord(bHi) && IsWord(bLo) && IsInt(a)
      invariant 0 <= bHi * W + bLo < W * Pow2(i)
      invariant hi * W + lo + Owing(a, 32 - i, bHi * W + bLo) == product
    {
      ghost var wide := bHi * W + bLo;
      PartFits(hi * W + lo, a, 32 - i, wide, product);
      OwingStep(a, 32 - i, wide);
      if a % 2 == 1 {
        hi, lo := AddDouble(hi, lo, bHi, bLo);
        if a == 1 {
          OwingLast(32 - i, wide);
          return;
        }
      }
      DoubleFits(wide, i);
      bHi, bLo := DoubleUp(bHi, bLo);
      a := a / 2;
    }
    OwingNone(a, bHi * W + bLo);
  }

  lemma PowZero()
    ensures Pow2(0) == 1
  {
  }

  /** Two's complement of a double word. */
  method Negate(hi: int, lo: int) returns (hi': int, lo': int)
    requires IsWord(hi) && IsWord(lo)
    ensures IsWord(hi') && IsWord(lo')
    ensures hi' * W + lo' == if hi == lo == 0 then 0 else W * W - (hi * W + lo)
  {
    hi' := W - 1 - hi;
    lo' := W - 1 - lo;
    lo' := (lo' + 1) % W;
    if lo' == 0 {
      hi' := (hi' + 1) % W;
    }
  }

  /** -x as the machine computes it: the most negative int is its own negation. */
  function NegateInt(x: int): (y: int)
    requires IsInt(x)
    ensures IsInt(y) && (x < 0 ==> Unsigned(y) == -x)
  {
    if x == -TOP_BIT then x else -x
  }

  lemma ScaleUp(x: int, y: int, t: int)
    requires 0 <= x && y <= t
    ensures x * y <= x * t
  {
  }

  lemma NonNegative(x: int, y: int)
    requires 0 <= x && 0 <= y
    ensures 0 <= x * y
  {
  }

  lemma ProductBound(x: int, y: int)
    requires 0 <= x <= TOP_BIT && 0 <= y <= TOP_BIT
    ensures 0 <= x * y <= TOP_BIT * TOP_BIT
  {
    NonNegative(x, y);
    ScaleUp(x, y, TOP_BIT);
  }

  lemma Signs(a: int, b: int)
    ensures (-a) * b == -(a * b) && a * (-b) == -(a * b) && (-a) * (-b) == a * b
  {
  }

  lemma SignedProduct(a: int, b: int, pa: int, pb: int, negative: bool)
    requires IsInt(a) && IsInt(b)
    requires pa == (if a < 0 then -a else a) && pb == (if b < 0 then -b else b)
    requires negative <==> ((a < 0) != (b < 0))
    ensures a * b == if negative then -(pa * pb) else pa * pb
    ensures 0 <= pa * pb <= TOP_BIT * TOP_BIT
  {
    ProductBound(pa, pb);
    Signs(a, b);
  }

  /** The double word read as a signed number. */
  lemma SignedDouble(hi: int, lo: int, v: int)
    requires IsWord(hi) && IsWord(lo) && -(TOP_BIT * TOP_BIT) <= v <= TOP_BIT * TOP_BIT
    requires hi * W + lo == if v < 0 then v + W * W else v
    ensures Signed(hi) * W + lo == v
  {
  }

  /** Mult: the exact 64-bit product, for every pair of ints and either reading of their bits. */
  method Mult(a: int, b: int, signedArith: bool) returns (hi: int, lo: int)
    requires IsInt(a) && IsInt(b)
    ensures IsInt(hi) && IsInt(lo)
    ensures signedArith ==> hi * W + Unsigned(lo) == a * b
    ensures !signedArith ==> Unsigned(hi) * W + Unsigned(lo) == Unsigned(a) * Unsigned(b)
  {
    if a == 0 || b == 0 {
      return 0, 0;
    }
    var negative, pa, pb := false, a, b;
    if signedArith {
      if a < 0 {
        negative := !negative;
        pa := NegateInt(a);
      }
      if b < 0 {
        negative := !negative;
        pb := NegateInt(b);
      }
    }
    var h, l := MultiplyWords(pa, Unsigned(pb));
    ghost var product := Unsigned(pa) * Unsigned(pb);
    if signedArith {
      SignedProduct(a, b, Unsigned(pa), Unsigned(pb), negative);
    }
    if negative {
      h, l := Negate(h, l);
    }
    if signedArith {
      SignedDouble(h, l, a * b);
    }
    hi, lo := Signed(h), Signed(l);
  }
}
