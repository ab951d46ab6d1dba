/** Decimal notation and the wrap-around of 32-bit ints. */
module Decimals {
  import opened Multiply

  const INT_MIN: int := -0x8000_0000

  predicate IsDigit(c: char) { '0' <= c <= '9' }

  function DigitOf(c: char): int { c as int - '0' as int }

  function DigitChar(d: int): (c: char)
    requires 0 <= d < 10
    ensures IsDigit(c) && DigitOf(c) == d
  {
    '0' + d as char
  }

  lemma DigitCharOf(c: char)
    requires IsDigit(c)
    ensures DigitChar(DigitOf(c)) == c
  {
  }

  /** The decimal digits of a positive number. */
  function Digits(n: int): (s: string)
    requires n > 0
    ensures s != [] && forall i :: 0 <= i < |s| ==> IsDigit(s[i])
  {
    if n < 10 then [DigitChar(n)] else Digits(n / 10) + [DigitChar(n % 10)]
  }

  /** The canonical decimal notation of v. */
  function Decimal(v: int): string {
    if v == 0 then "0" else if v < 0 then "-" + Digits(-v) else Digits(v)
  }

  /** The number a digit string denotes, leading zeros or not. */
  function Value(s: string): int {
    if s == [] then 0 else 10 * Value(s[..|s| - 1]) + DigitOf(s[|s| - 1])
  }

  lemma {:induction false} ValueOfDigits(n: int)
    requires n > 0
    ensures Value(Digits(n)) == n
  {
    if n >= 10 {
      ValueOfDigits(n / 10);
      assert Digits(n)[..|Digits(n)| - 1] == Digits(n / 10);
    } else {
      assert Digits(n)[..0] == [];
    }
  }

  ghost predicate AllDigits(s: string) { forall i :: 0 <= i < |s| ==> IsDigit(s[i]) }

  function Ten(k: nat): (p: int)
    ensures p > 0
  {
    if k == 0 then 1 else 10 * Ten(k - 1)
  }

  lemma {:induction false} ValueBound(s: string)
    requires AllDigits(s)
    ensures 0 <= Value(s) < Ten(|s|)
  {
    if s == [] {
    } else {
      ValueBound(s[..|s| - 1]);
    }
  }

  lemma {:induction false} DigitsLength(n: int, k: nat)
    requires n > 0
    ensures |Digits(n)| <= k <==> n < Ten(k)
  {
    if k == 0 {
    } else if n >= 10 {
      DigitsLength(n / 10, k - 1);
    }
  }

  lemma TenNine()
    ensures Ten(9) == 1_000_000_000 && Ten(10) == 10_000_000_000
  {
    assert Ten(4) == 10_000;
    assert Ten(8) == 100_000_000;
  }

  /** Decimal notation is unambiguous. */
  lemma DecimalInjective(v: int, w: int)
    requires Decimal(v) == Decimal(w)
    ensures v == w
  {
    if v != 0 {
      ValueOfDigits(if v < 0 then -v else v);
    }
    if w != 0 {
      ValueOfDigits(if w < 0 then -w else w);
    }
    assert Value("0") == 0 by { assert "0"[..0] == []; }
    if v < 0 {
      assert Decimal(v)[0] == '-' && Decimal(v)[1..] == Digits(-v);
    }
    if w < 0 {
      assert Decimal(w)[0] == '-' && Decimal(w)[1..] == Digits(-w);
    }
  }

  /** Short notations are those of the numbers from -999999999 up. */
  lemma DecimalLength(v: int)
    requires IsInt(v)
    ensures |Decimal(v)| <= 10 <==> v >= -999_999_999
    ensures |Decimal(v)| <= 11
  {
    TenNine();
    if v < 0 {
      DigitsLength(-v, 9);
      DigitsLength(-v, 10);
    } else if v > 0 {
      DigitsLength(v, 10);
    }
  }

  // ----- wrap-around -----

  function Wrap(x: int): (y: int)
    ensures IsInt(y)
  {
    Signed(x % W)
  }

  lemma WrapInt(x: int)
    requires IsInt(x)
    ensures Wrap(x) == x
  {
  }

  lemma WrapStep(x: int, d: int)
    ensures Wrap(Wrap(x) * 10 + d) == Wrap(10 * x + d)
  {
    var q := x / W;
    assert x == q * W + x % W;
    assert Wrap(x) == x - q * W || Wrap(x) == x - (q + 1) * W;
    WrapMultiple(Wrap(x) * 10 + d, 10 * q);
    WrapMultiple(Wrap(x) * 10 + d, 10 * (q + 1));
  }

  lemma WrapMultiple(x: int, k: int)
    ensures Wrap(x + k * W) == Wrap(x)
  {
    assert x == (x / W) * W + x % W;
    assert x + k * W == (x / W + k) * W + x % W;
    Remainder(x + k * W, W, x / W + k, x % W);
  }
}

/** The number-reading and number-printing system calls (userprog/ksyscall.h). */
module Numbers {
  import opened Base
  import opened Multiply
  import opened Decimals

  const MAX_NUM_LEN: int := 11

  // ----- checkNumString -----

  /** The digits of n, none for zero. */
  function Rest(n: int): string
    requires n >= 0
  {
    if n == 0 then [] else Digits(n)
  }

  lemma RestStep(n: int)
    requires n > 0
    ensures Rest(n) == Rest(n / 10) + [DigitChar(n % 10)]
  {
  }

  lemma RestAll(n: int, t: string)
    requires n > 0
    ensures Digits(n) == Rest(n) + t[|t|..]
  {
  }

  lemma RestNone()
    ensures Rest(0) == []
  {
  }

  ghost predicate ProperSuffix(s: string, t: string) { |s| < |t| && s == t[|t| - |s|..] }

  /** checkNumString looks in front of its string. */
  ghost predicate Overruns(integer: int, s: string) {
    integer > 0 && ProperSuffix(s, Digits(integer))
  }

  lemma Mismatch(all: string, front: string, t: string, k: nat, c: char)
    requires 0 < k <= |t| && all == front + [c] + t[k..] && t[k - 1] != c
    ensures t != all && !ProperSuffix(t, all)
  {
    assert all[|front|] == c;
  }

  lemma Match(all: string, front: string, t: string, k: nat, c: char)
    requires 0 < k <= |t| && all == front + [c] + t[k..] && t[k - 1] == c
    ensures all == front + t[k - 1..]
  {
    assert t[k - 1..] == [c] + t[k..];
  }

  lemma Exhausted(all: string, front: string, t: string, c: char)
    requires all == front + [c] + t[0..]
    ensures t != all && ProperSuffix(t, all)
  {
  }

  lemma Ended(all: string, t: string, k: nat)
    requires k <= |t| && all == t[k..]
    ensures (k == 0 <==> t == all) && !ProperSuffix(t, all)
  {
  }

  /** The digit loop, from the last character back; None is an access in front of the string. */
  method MatchDigits(n: int, t: string, signed: bool) returns (r: Option<bool>)
    requires n > 0
    ensures r.None? <==> !signed && ProperSuffix(t, Digits(n))
    ensures r.Some? ==> (r.value <==> t == Digits(n))
  {
    hide ProperSuffix, Rest, Digits;
    var integer, len := n, |t|;
    ghost var all := Digits(n);
    RestAll(n, t);
    while integer > 0
      invariant integer >= 0 && 0 <= len <= |t|
      invariant all == Rest(integer) + t[len..]
    {
      var digit := integer % 10;
      RestStep(integer);
      if len == 0 {
        // with a sign, the character found there is the sign, which is no digit
        Exhausted(all, Rest(integer / 10), t, DigitChar(digit));
        return if signed then Some(false) else None;
      }
      if DigitOf(t[len - 1]) != digit {
        Mismatch(all, Rest(integer / 10), t, len, DigitChar(digit));
        return Some(false);
      }
      DigitCharOf(t[len - 1]);
      Match(all, Rest(integer / 10), t, len, DigitChar(digit));
      len := len - 1;
      integer := integer / 10;
    }
    RestNone();
    Ended(all, t, len);
    return Some(len == 0);
  }

  /** checkNumString recognises the canonical notation of every int but the most negative one;
      it stays inside its string exactly when the string is not a proper suffix of a positive number's digits. */
  method CheckNumString(integer: int, s: string) returns (r: Option<bool>)
    requires IsInt(integer)
    ensures r.None? <==> Overruns(integer, s)
    ensures r.Some? && integer != INT_MIN ==> (r.value <==> s == Decimal(integer))
    ensures integer == INT_MIN ==> r == Some(s == "-")
  {
    if integer == 0 {
      return Some(s == "0");
    }
    if integer < 0 && (s == [] || s[0] != '-') {
      return Some(false);
    }
    if integer < 0 {
      assert s == "-" + s[1..];
      if NegateInt(integer) <= 0 {
        return Some(|s| - 1 == 0);
      }
      r := MatchDigits(NegateInt(integer), s[1..], true);
      assert s == Decimal(integer) <==> s[1..] == Digits(-integer);
    } else {
      r := MatchDigits(integer, s, false);
    }
  }

  /** The access in front of the string does occur for arguments the system call never passes. */
  lemma OverrunExample()
    ensures Overruns(12, "2")
  {
    assert Digits(12) == "12";
  }

  // ----- SysReadNum -----

  /** r is what SysReadNum makes of a text: a nonzero v exactly for v's canonical decimal notation,
      of at most ten characters or that of the most negative int. */
  ghost predicate ReadsAs(text: string, r: int) {
    && IsInt(r)
    && forall v :: IsInt(v) && v != 0 ==> (r == v <==> text == Decimal(v) && (|text| <= 10 || v == INT_MIN))
  }

  lemma DigitsNext(n: int, c: char, s: string)
    requires n > 0 && IsDigit(c) && Digits(n) == s
    ensures Digits(10 * n + DigitOf(c)) == s + [c]
  {
    var d := DigitOf(c);
    DigitCharOf(c);
    assert (10 * n + d) / 10 == n && (10 * n + d) % 10 == d;
  }

  lemma Digits2147()
    ensures Digits(2147) == "2147"
  {
    assert Digits(2) == "2" by { DigitCharOf('2'); }
    hide Digits;
    DigitsNext(2, '1', "2");
    DigitsNext(21, '4', "21");
    DigitsNext(214, '7', "214");
  }

  lemma Digits2147483()
    ensures Digits(2147483) == "2147483"
  {
    hide Digits;
    Digits2147();
    DigitsNext(2147, '4', "2147");
    DigitsNext(21474, '8', "21474");
    DigitsNext(214748, '3', "214748");
  }

  lemma MinDecimal()
    ensures Decimal(INT_MIN) == "-2147483648"
  {
    hide Digits;
    Digits2147483();
    DigitsNext(2147483, '6', "2147483");
    DigitsNext(21474836, '4', "21474836");
    DigitsNext(214748364, '8', "214748364");
  }

  /** What the digit loop is given: the text after its sign, if it has one. */
  function Body(text: string): string { if text != [] && text[0] == '-' then text[1..] else text }

  lemma DecimalBody(v: int)
    requires v != 0
    ensures Body(Decimal(v)) == Digits(if v < 0 then -v else v)
    ensures v < 0 <==> Decimal(v)[0] == '-'
  {
    if v < 0 {
      assert Decimal(v)[1..] == Digits(-v);
    }
  }

  function Sign(text: string, x: int): int
    requires IsInt(x)
  {
    if text != [] && text[0] == '-' then NegateInt(x) else x
  }

  /** No wrap-around for the texts that count. */
  lemma DecimalSum(text: string, v: int)
    requires IsInt(v) && v != 0 && text == Decimal(v) && |text| <= 10
    ensures AllDigits(Body(text)) && Sign(text, Wrap(Value(Body(text)))) == v
  {
    DecimalLength(v);
    DecimalBody(v);
    ValueOfDigits(if v < 0 then -v else v);
    WrapInt(if v < 0 then -v else v);
  }

  /** The check never looks in front of a text that was just summed up. */
  lemma NeverOverruns(text: string, num: int)
    requires AllDigits(Body(text)) && |text| <= 10 && num == Sign(text, Wrap(Value(Body(text))))
    ensures !Overruns(num, text)
  {
    if Overruns(num, text) {
      TenNine();
      DigitsLength(num, 10);
      assert |text| <= 9;
      assert text != [] ==> IsDigit(text[0]);
      ValueBound(text);
      TenGrows(|text|, 9);
      WrapInt(Value(text));
      DigitsLength(num, |text|);
      assert false;
    }
  }

  lemma {:induction false} TenGrows(j: nat, k: nat)
    requires j <= k
    ensures Ten(j) <= Ten(k)
  {
    if j == k {
    } else {
      TenGrows(j, k - 1);
    }
  }

  /** A sum that wrapped to the most negative int is not taken for "-". */
  lemma NotMinusOnly(text: string, num: int)
    requires AllDigits(Body(text)) && num == Sign(text, Wrap(Value(Body(text)))) && num == INT_MIN
    ensures text != "-"
  {
    WrapInt(0);
  }

  lemma RejectsNonDigits(text: string)
    requires !AllDigits(Body(text)) && text != "-2147483648"
    ensures ReadsAs(text, 0)
  {
    forall v | IsInt(v) && v != 0 && text == Decimal(v) ensures false {
      DecimalBody(v);
    }
  }

  lemma RejectsLong(text: string)
    requires |text| >= MAX_NUM_LEN && text != "-2147483648"
    ensures ReadsAs(text, 0)
  {
    MinDecimal();
  }

  lemma ReadsMin()
    ensures ReadsAs("-2147483648", INT_MIN)
  {
    MinDecimal();
    forall v | Decimal(v) == "-2147483648" ensures v == INT_MIN {
      DecimalInjective(v, INT_MIN);
    }
  }

  lemma ReadsChecked(text: string, num: int, accepted: bool)
    requires AllDigits(Body(text)) && |text| <= 10 && num == Sign(text, Wrap(Value(Body(text))))
    requires num != INT_MIN ==> (accepted <==> text == Decimal(num))
    requires num == INT_MIN ==> !accepted
    ensures ReadsAs(text, if accepted then num else 0)
  {
    forall v | IsInt(v) && v != 0 && text == Decimal(v) ensures v == num && accepted {
      DecimalSum(text, v);
      DecimalLength(v);
    }
  }

  /** The accumulating loop; the sum wraps like the machine's ints. */
  method Accumulate(text: string) returns (ok: bool, num: int)
    ensures ok <==> AllDigits(Body(text))
    ensures IsInt(num) && (ok ==> num == Wrap(Value(Body(text))))
  {
    hide Wrap;
    num := 0;
    var index := if text != [] && text[0] == '-' then 1 else 0;
    ghost var start := index;
    assert Body(text) == text[start..];
    assert Value(text[start..index]) == 0;
    WrapInt(0);
    while index < |text|
      invariant start <= index <= |text|
      invariant forall i :: start <= i < index ==> IsDigit(text[i])
      invariant IsInt(num) && num == Wrap(Value(text[start..index]))
    {
      var temp := text[index];
      index := index + 1;
      if temp < '0' || temp > '9' {
        assert Body(text)[index - 1 - start] == temp;
        return false, num;
      }
      ghost var s := text[start..index];
      assert s[..|s| - 1] == text[start..index - 1];
      WrapStep(Value(s[..|s| - 1]), DigitOf(temp));
      num := Wrap(num * 10 + DigitOf(temp));
    }
    assert text[start..index] == Body(text);
    return true, num;
  }

  /** The C string held in a buffer. */
  function CString(buffer: string): (t: string)
    ensures |t| <= |buffer| && t == buffer[..|t|] && '\0' !in t
    ensures |t| < |buffer| ==> buffer[|t|] == '\0'
  {
    if buffer == [] || buffer[0] == '\0' then [] else [buffer[0]] + CString(buffer[1..])
  }

  /** Everything before the first newline. */
  function Line(input: string): (t: string)
    ensures |t| <= |input| && t == input[..|t|] && '\n' !in t
    ensures |t| < |input| ==> input[|t|] == '\n'
  {
    if input == [] || input[0] == '\n' then [] else [input[0]] + Line(input[1..])
  }

  lemma LineEnd(input: string, n: nat)
    requires n <= |Line(input)| < |input|
    ensures input[n] == '\n' <==> n == |Line(input)|
  {
    assert n < |Line(input)| ==> Line(input)[n] == input[n];
  }

  predicate Zeros(s: string) { forall i :: 0 <= i < |s| ==> s[i] == '\0' }

  lemma {:induction false} Padded(line: string, zeros: string)
    requires Zeros(zeros)
    ensures CString(line + zeros) == CString(line)
  {
    if line == [] {
      assert line + zeros == zeros;
    } else {
      Padded(line[1..], zeros);
      assert (line + zeros)[1..] == line[1..] + zeros;
    }
  }

  class Console {
    const numberBuffer: array<char>
    var input: string
    var output: string

    ghost predicate Valid()
      reads this
    {
      numberBuffer.Length == MAX_NUM_LEN + 2
    }

    constructor (typed: string)
      ensures Valid() && fresh(numberBuffer) && input == typed && output == []
    {
      numberBuffer := new char[MAX_NUM_LEN + 2](i => '\0');
      input, output := typed, [];
    }

    /** The keyboard loop, for a line that leaves room for its terminator. */
    method ReadLine()
      requires Valid() && |Line(input)| < |input| && |Line(input)| < MAX_NUM_LEN + 2
      modifies this`input, numberBuffer
      ensures input == old(input)[|Line(old(input))| + 1..]
      ensures CString(numberBuffer[..]) == CString(Line(old(input)))
    {
      ClearBuffer();
      ghost var line := Line(input);
      var n := 0;
      while true
        invariant 0 <= n <= |line| && input == old(input)[n..]
        invariant numberBuffer[..n] == line[..n]
        invariant Zeros(numberBuffer[n..])
        decreases |line| - n
      {
        LineEnd(old(input), n);
        var c := input[0];
        input := input[1..];
        if c != '\n' {
          ghost var rest := numberBuffer[n..];
          numberBuffer[n] := c;
          assert numberBuffer[n + 1..] == rest[1..];
          n := n + 1;
        } else {
          break;
        }
      }
      assert numberBuffer[..] == line + numberBuffer[n..];
      Padded(line, numberBuffer[n..]);
    }

    method ClearBuffer()
      modifies numberBuffer
      ensures Zeros(numberBuffer[..])
    {
      var i := 0;
      while i < numberBuffer.Length
        invariant 0 <= i <= numberBuffer.Length
        invariant forall k :: 0 <= k < i ==> numberBuffer[k] == '\0'
        modifies numberBuffer
      {
        numberBuffer[i] := '\0';
        i := i + 1;
      }
    }

    /** SysReadNum. */
    method ReadNum() returns (r: int)
      requires Valid() && |Line(input)| < |input| && |Line(input)| < MAX_NUM_LEN + 2
      modifies this`input, numberBuffer
      ensures ReadsAs(CString(Line(old(input))), r)
      ensures input == old(input)[|Line(old(input))| + 1..]
    {
      hide ReadsAs, Overruns, Wrap, AllDigits;
      ReadLine();
      var text := CString(numberBuffer[..]);
      if text == "-2147483648" {
        ReadsMin();
        return INT_MIN;
      }
      if |text| >= MAX_NUM_LEN {
        RejectsLong(text);
        return 0;
      }
      var ok, num := Accumulate(text);
      if !ok {
        RejectsNonDigits(text);
        return 0;
      }
      num := Sign(text, num);
      NeverOverruns(text, num);
      var canonical := CheckNumString(num, text);
      if num == INT_MIN {
        NotMinusOnly(text, num);
      }
      ReadsChecked(text, num, canonical.value);
      return if canonical.value then num else 0;
    }

    /** SysPrintNum: the canonical notation, for every int. */
    method PrintNum(v: int)
      requires Valid() && IsInt(v)
      modifies this`output, numberBuffer
      ensures output == old(output) + Decimal(v)
    {
      hide Digits;
      if v == 0 {
        output := output + "0";
        return;
      }
      if v == INT_MIN {
        MinDecimal();
        output := output + "-2147483648";
        return;
      }
      var num := v;
      if num < 0 {
        output := output + "-";
        num := -num;
      }
      PrintDigits(num);
    }

    /** The digits go into the buffer last first, and come out in order. */
    method PrintDigits(v: int)
      requires Valid() && 0 < v < TOP_BIT
      modifies this`output, numberBuffer
      ensures output == old(output) + Digits(v)
    {
      hide Digits, Rest;
      var num, n := v, 0;
      ghost var all := Digits(v);
      TenNine();
      DigitsLength(v, 10);
      RestAll(v, []);
      while num != 0
        invariant num >= 0 && n + |Rest(num)| == |all| && all[..|Rest(num)|] == Rest(num)
        invariant n <= |all|
        invariant forall k :: 0 <= k < n ==>
                                numberBuffer[k] as int < 10 && DigitChar(numberBuffer[k] as int) == all[|all| - 1 - k]
        modifies numberBuffer
      {
        RestStep(num);
        numberBuffer[n] := (num % 10) as char;
        n := n + 1;
        num := num / 10;
      }
      RestNone();
      var i := n - 1;
      while i >= 0
        invariant -1 <= i < n && output == old(output) + all[..n - 1 - i]
        modifies this`output
      {
        output := output + [DigitChar(numberBuffer[i] as int)];
        i := i - 1;
      }
      assert all[..n] == all;
    }
  }

  /** Reading inverts printing exactly on -999999999..2147483647 and the most negative int. */
  lemma RoundTrip(v: int, r: int)
    requires IsInt(v) && ReadsAs(Decimal(v), r)
    ensures r == v <==> v >= -999_999_999 || v == INT_MIN
  {
    DecimalLength(v);
    if r != v && r != 0 {
      DecimalInjective(r, v);
    }
  }
}
