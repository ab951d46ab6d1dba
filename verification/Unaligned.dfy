/** The unaligned load and store instructions through the load-delay slot, in the SIM_FIX variant
    (machine/mipssim.cc).  A register holds its 32 bits read as an unsigned number. */
module Unaligned {
  import opened MipsMemory

  const PC_REG: int := 34
  const NEXT_PC_REG: int := 35
  const PREV_PC_REG: int := 36
  const LOAD_REG: int := 37
  const LOAD_VALUE_REG: int := 38
  const BAD_VADDR_REG: int := 39
  const NUM_TOTAL_REGS: int := 40

  datatype Cpu = Cpu(regs: seq<int>, mem: seq<int>, table: seq<Entry>)

  /** An instruction's exception, if any, and the state it leaves to the kernel or the next instruction. */
  datatype Ran = Ran(exception: Exception, cpu: Cpu)

  ghost predicate IsRegs(regs: seq<int>) {
    && |regs| == NUM_TOTAL_REGS && (forall r :: 0 <= r < NUM_TOTAL_REGS ==> IsWord(regs[r]))
    && regs[LOAD_REG] < 32 && regs[0] == 0
  }

  ghost predicate IsCpu(c: Cpu) { IsRegs(c.regs) && IsMemory(c.mem) }

  // ----- the delay slot -----

  /** DelayedLoad: the pending load lands and another one becomes pending. */
  function Delayed(regs: seq<int>, nextReg: int, nextValue: int): (s: seq<int>)
    requires |regs| == NUM_TOTAL_REGS && 0 <= regs[LOAD_REG] < 32
    ensures |s| == NUM_TOTAL_REGS
  {
    regs[regs[LOAD_REG] := regs[LOAD_VALUE_REG]][LOAD_REG := nextReg][LOAD_VALUE_REG := nextValue][0 := 0]
  }

  /** RaiseException, up to the kernel's handler. */
  function Trapped(regs: seq<int>, badVAddr: int): seq<int>
    requires |regs| == NUM_TOTAL_REGS && 0 <= regs[LOAD_REG] < 32
  {
    Delayed(regs[BAD_VADDR_REG := badVAddr], 0, 0)
  }

  /** The common end of a successful instruction. */
  function Finished(regs: seq<int>, nextReg: int, nextValue: int): (s: seq<int>)
    requires |regs| == NUM_TOTAL_REGS && 0 <= regs[LOAD_REG] < 32
    ensures |s| == NUM_TOTAL_REGS
  {
    var d := Delayed(regs, nextReg, nextValue);
    d[PREV_PC_REG := d[PC_REG]][PC_REG := d[NEXT_PC_REG]][NEXT_PC_REG := (regs[NEXT_PC_REG] + 4) % W]
  }

  /** The value register rt has, or will have once the pending load lands. */
  function Latest(regs: seq<int>, rt: int): int
    requires |regs| == NUM_TOTAL_REGS && 0 <= rt < 32
  {
    if regs[LOAD_REG] == rt then regs[LOAD_VALUE_REG] else regs[rt]
  }

  /** CheckIfDue's flush, when an interrupt comes between two instructions. */
  function Flushed(c: Cpu, interrupted: bool): Cpu
    requires IsRegs(c.regs)
  {
    if interrupted then c.(regs := Delayed(c.regs, 0, 0)) else c
  }

  lemma DelayedRegs(regs: seq<int>, nextReg: int, nextValue: int)
    requires IsRegs(regs) && 0 <= nextReg < 32 && IsWord(nextValue)
    ensures IsRegs(Delayed(regs, nextReg, nextValue)) && IsRegs(Finished(regs, nextReg, nextValue))
  {
  }

  /** What a program sees of a register does not depend on when the delayed load lands. */
  lemma LatestDelayed(regs: seq<int>, rt: int, nextReg: int, nextValue: int)
    requires IsRegs(regs) && 0 < rt < 32 && 0 <= nextReg < 32 && IsWord(nextValue)
    ensures var want := if nextReg == rt then nextValue else Latest(regs, rt);
      Latest(Delayed(regs, nextReg, nextValue), rt) == want && Latest(Finished(regs, nextReg, nextValue), rt) == want
  {
  }

  // ----- addresses -----

  function Target(regs: seq<int>, rs: int, extra: int): (v: int)
    requires |regs| == NUM_TOTAL_REGS && 0 <= rs < 32
    ensures IsWord(v)
  {
    (regs[rs] + extra) % W
  }

  /** What user address v reads as. */
  function Virtual(c: Cpu, v: int): int
    requires |c.mem| == MEMORY_SIZE && Mapped(c.table, v, false)
  {
    c.mem[Place(c.table, v)]
  }

  /** d's user address space reads as c's does. */
  ghost predicate SameView(c: Cpu, d: Cpu) {
    && (forall u, w: bool :: Mapped(d.table, u, w) <==> Mapped(c.table, u, w))
    && (forall u :: Mapped(c.table, u, false) ==> Place(d.table, u) == Place(c.table, u))
  }

  function At(a: int, j: int): int { (a + j) % W }

  /** The unaligned word at a lies in the aligned words of a and of a+3. */
  ghost predicate Accessible(c: Cpu, a: int, writing: bool) {
    Mapped(c.table, a, writing) && Mapped(c.table, At(a, 3), writing)
  }

  lemma Spans(c: Cpu, a: int, j: int, writing: bool)
    requires IsWord(a) && 0 <= j < 4 && Accessible(c, a, writing)
    ensures Mapped(c.table, At(a, j), writing)
  {
    var (r, b) := (a % 4, At(a, 3));
    assert IsWord(b);
    hide At, Mapped;
    Aligned(a);
    Aligned(b);
    Halves(a, j);
    if j + r < 4 {
      WordPlaces(c.table, a - r, r, writing);
      WordPlaces(c.table, a - r, j + r, writing);
    } else {
      WordPlaces(c.table, b - b % 4, b % 4, writing);
      WordPlaces(c.table, b - b % 4, b % 4 - 3 + j, writing);
    }
  }

  lemma Aligned(v: int)
    requires IsWord(v)
    ensures IsWord(v - v % 4) && (v - v % 4) % 4 == 0
  {
  }

  /** Byte j of the word at a is in a's aligned word, or in that of b = a+3. */
  lemma Halves(a: int, j: int)
    requires IsWord(a) && 0 <= j < 4
    ensures var (r, b) := (a % 4, At(a, 3));
      && (j + r < 4 ==> At(a, j) == a + j)
      && (j + b % 4 >= 3 ==> At(a, j) == b - 3 + j)
      && b % 4 == (if r == 0 then 3 else r - 1)
  {
    var r := a % 4;
    if r == 0 {
      assert a + 3 < W;
    } else if a + 3 < W {
      assert (a + 3) % 4 == r - 1;
    } else {
      assert (a + 3 - W) % 4 == r - 1;
    }
  }

  lemma AllBytes(c: Cpu, a: int)
    requires IsCpu(c) && IsWord(a) && Accessible(c, a, false)
    ensures forall j :: 0 <= j < 4 ==> Mapped(c.table, At(a, j), false) && IsByte(Virtual(c, At(a, j)))
  {
    hide Mapped, At;
    forall j | 0 <= j < 4 ensures Mapped(c.table, At(a, j), false) && IsByte(Virtual(c, At(a, j))) {
      Spans(c, a, j, false);
    }
  }

  /** The little-endian word at the four user addresses from a on. */
  ghost function LittleWord(c: Cpu, a: int): int
    requires IsCpu(c) && IsWord(a) && Accessible(c, a, false)
  {
    AllBytes(c, a);
    Word4(Virtual(c, At(a, 0)), Virtual(c, At(a, 1)), Virtual(c, At(a, 2)), Virtual(c, At(a, 3)))
  }

  lemma LittleBytes(c: Cpu, a: int)
    requires IsCpu(c) && IsWord(a) && Accessible(c, a, false)
    ensures IsWord(LittleWord(c, a))
    ensures forall j :: 0 <= j < 4 ==>
      Mapped(c.table, At(a, j), false) && ByteOf(LittleWord(c, a), j) == Virtual(c, At(a, j))
  {
    hide Mapped, At, Virtual, ByteOf, Word4;
    AllBytes(c, a);
    BytesOfWord4(Virtual(c, At(a, 0)), Virtual(c, At(a, 1)), Virtual(c, At(a, 2)), Virtual(c, At(a, 3)));
  }

  // ----- the loads -----

  /** OP_LWL. */
  function Lwl(c: Cpu, rs: int, rt: int, extra: int): Ran
    requires IsCpu(c) && 0 <= rs < 32 && 0 <= rt < 32
  {
    var tmp := Target(c.regs, rs, extra);
    var k := tmp % 4;
    var fault := Fault(c.table, tmp - k, 4, false);
    if fault != NoException then Ran(fault, c.(regs := Trapped(c.regs, tmp - k)))
    else
      WordPlaces(c.table, tmp - k, 3, false);
      var value := KeepLow(Latest(c.regs, rt), WordAt(c.mem, Place(c.table, tmp - k)), 3 - k);
      Ran(NoException, Cpu(Finished(c.regs, rt, value), c.mem, Touched(c.table, tmp - k, false)))
  }

  /** OP_LWR. */
  function Lwr(c: Cpu, rs: int, rt: int, extra: int): Ran
    requires IsCpu(c) && 0 <= rs < 32 && 0 <= rt < 32
  {
    var tmp := Target(c.regs, rs, extra);
    var k := tmp % 4;
    var fault := Fault(c.table, tmp - k, 4, false);
    if fault != NoException then Ran(fault, c.(regs := Trapped(c.regs, tmp - k)))
    else
      WordPlaces(c.table, tmp - k, 3, false);
      var value := KeepHigh(Latest(c.regs, rt), WordAt(c.mem, Place(c.table, tmp - k)), k);
      Ran(NoException, Cpu(Finished(c.regs, rt, value), c.mem, Touched(c.table, tmp - k, false)))
  }

  /** The state after a load of x into rt: x is pending, and nothing the program can see is different otherwise. */
  ghost predicate Loaded(c: Cpu, d: Cpu, rt: int, x: int)
    requires IsCpu(c) && 0 <= rt < 32
  {
    && IsCpu(d) && d.mem == c.mem && SameView(c, d) && IsWord(x) && d.regs == Finished(c.regs, rt, x)
  }

  lemma WordBytes(c: Cpu, v: int, i: int)
    requires IsCpu(c) && IsWord(v) && v % 4 == 0 && Mapped(c.table, v, false) && 0 <= i < 4
    ensures 0 <= Place(c.table, v) <= MEMORY_SIZE - 4 && Mapped(c.table, v + i, false)
    ensures IsWord(WordAt(c.mem, Place(c.table, v))) && ByteOf(WordAt(c.mem, Place(c.table, v)), i) == Virtual(c, v + i)
  {
    hide ByteOf, WordAt, Place;
    WordPlaces(c.table, v, 3, false);
    WordPlaces(c.table, v, i, false);
    WordAtBytes(c.mem, Place(c.table, v));
  }

  lemma SameWord(table: seq<Entry>, v: int, writing: bool)
    requires IsWord(v)
    ensures IsWord(v - v % 4) && (v - v % 4) % 4 == 0
    ensures Mapped(table, v - v % 4, writing) <==> Mapped(table, v, writing)
    ensures Fault(table, v - v % 4, 4, writing) == NoException <==> Mapped(table, v, writing)
  {
    Aligned(v);
    WordPlaces(table, v - v % 4, v % 4, writing);
    NoFault(table, v - v % 4, 4, writing);
  }

  /** Byte j of a register that was `was` after LWL at v. */
  ghost predicate LeftByte(c: Cpu, v: int, was: int, x: int, j: int)
    requires IsCpu(c)
  {
    if j >= 3 - v % 4 then Mapped(c.table, v - 3 + j, false) && ByteOf(x, j) == Virtual(c, v - 3 + j)
    else ByteOf(x, j) == ByteOf(was, j)
  }

  /** Byte j of a register that was `was` after LWR at v. */
  ghost predicate RightByte(c: Cpu, v: int, was: int, x: int, j: int)
    requires IsCpu(c)
  {
    if j < 4 - v % 4 then Mapped(c.table, v + j, false) && ByteOf(x, j) == Virtual(c, v + j)
    else ByteOf(x, j) == ByteOf(was, j)
  }

  /** LWL at v: the bytes at v and below, down to the word boundary, go to the top of the register. */
  lemma LwlLoads(c: Cpu, rs: int, rt: int, extra: int) returns (x: int)
    requires IsCpu(c) && 0 <= rs < 32 && 0 <= rt < 32
    requires Mapped(c.table, Target(c.regs, rs, extra), false)
    ensures Lwl(c, rs, rt, extra).exception == NoException
    ensures Loaded(c, Lwl(c, rs, rt, extra).cpu, rt, x)
    ensures forall j :: 0 <= j < 4 ==> LeftByte(c, Target(c.regs, rs, extra), Latest(c.regs, rt), x, j)
  {
    hide ByteOf, KeepLow, WordAt, Place, Mapped, Touched;
    var v := Target(c.regs, rs, extra);
    var k := v % 4;
    SameWord(c.table, v, false);
    WordBytes(c, v - k, 3);
    var word := WordAt(c.mem, Place(c.table, v - k));
    x := KeepLow(Latest(c.regs, rt), word, 3 - k);
    KeepLowBytes(Latest(c.regs, rt), word, 3 - k);
    DelayedRegs(c.regs, rt, x);
    forall j | 0 <= j < 4
      ensures LeftByte(c, v, Latest(c.regs, rt), x, j)
    {
      if j >= 3 - k {
        WordBytes(c, v - k, j - (3 - k));
        assert v - k + (j - (3 - k)) == v - 3 + j;
      }
    }
  }

  /** LWR at v: the bytes at v and above, up to the word boundary, go to the bottom of the register. */
  lemma LwrLoads(c: Cpu, rs: int, rt: int, extra: int) returns (x: int)
    requires IsCpu(c) && 0 <= rs < 32 && 0 <= rt < 32
    requires Mapped(c.table, Target(c.regs, rs, extra), false)
    ensures Lwr(c, rs, rt, extra).exception == NoException
    ensures Loaded(c, Lwr(c, rs, rt, extra).cpu, rt, x)
    ensures forall j :: 0 <= j < 4 ==> RightByte(c, Target(c.regs, rs, extra), Latest(c.regs, rt), x, j)
  {
    hide ByteOf, KeepHigh, WordAt, Place, Mapped, Touched;
    var v := Target(c.regs, rs, extra);
    var k := v % 4;
    SameWord(c.table, v, false);
    WordBytes(c, v - k, 3);
    var word := WordAt(c.mem, Place(c.table, v - k));
    x := KeepHigh(Latest(c.regs, rt), word, k);
    KeepHighBytes(Latest(c.regs, rt), word, k);
    DelayedRegs(c.regs, rt, x);
    forall j | 0 <= j < 4
      ensures RightByte(c, v, Latest(c.regs, rt), x, j)
    {
      if j < 4 - k {
        WordBytes(c, v - k, j + k);
        assert v - k + (j + k) == v + j;
      }
    }
  }

  /** What every later instruction finds in register r, wherever the delayed load has got to. */
  lemma {:induction false} LoadedLatest(c: Cpu, d: Cpu, rt: int, x: int, interrupted: bool, r: int)
    requires IsCpu(c) && 0 < rt < 32 && Loaded(c, d, rt, x) && 0 < r < 32
    ensures var e := Flushed(d, interrupted);
      IsCpu(e) && e.mem == c.mem && SameView(c, e) && Latest(e.regs, r) == if r == rt then x else Latest(c.regs, r)
  {
    hide Mapped, Place;
    LatestDelayed(c.regs, r, rt, x);
    DelayedRegs(d.regs, 0, 0);
    LatestDelayed(d.regs, r, 0, 0);
  }

  /** The whole pair: after it, with the loaded word x, the program sees x in rt and nothing else changed. */
  ghost predicate PairLoaded(c: Cpu, r: Ran, rt: int, x: int)
    requires IsCpu(c)
  {
    && r.exception == NoException && IsCpu(r.cpu) && r.cpu.mem == c.mem && SameView(c, r.cpu)
    && forall g :: 0 < g < 32 ==> Latest(r.cpu.regs, g) == if g == rt then x else Latest(c.regs, g)
  }

  lemma ViewOnce(c: Cpu, e: Cpu, d: Cpu)
    requires SameView(c, e) && SameView(e, d)
    ensures SameView(c, d)
  {
    hide Mapped, Place;
  }

  lemma ViewReads(c: Cpu, e: Cpu, a: int, j: int)
    requires IsCpu(c) && IsCpu(e) && SameView(c, e) && e.mem == c.mem && IsWord(a) && 0 <= j < 4
    requires Accessible(c, a, false)
    ensures Accessible(e, a, false) && Mapped(c.table, At(a, j), false) && Mapped(e.table, At(a, j), false)
    ensures Virtual(e, At(a, j)) == Virtual(c, At(a, j))
  {
    hide At;
    Spans(c, a, j, false);
  }

  /** LWL at a+3 then LWR at a, with or without an interrupt between them. */
  lemma LeftThenRight(c: Cpu, rs: int, extra: int, interrupted: bool, rs': int, extra': int, rt: int, a: int)
    requires IsCpu(c) && 0 <= rs < 32 && 0 <= rs' < 32 && 0 < rt < 32 && IsWord(a) && Accessible(c, a, false)
    requires Target(c.regs, rs, extra) == At(a, 3)
    ensures var first := Lwl(c, rs, rt, extra);
      && first.exception == NoException && IsCpu(first.cpu) && IsCpu(Flushed(first.cpu, interrupted))
      && var e := Flushed(first.cpu, interrupted);
         Target(e.regs, rs', extra') == a ==> PairLoaded(c, Lwr(e, rs', rt, extra'), rt, LittleWord(c, a))
  {
    hide ByteOf, Place, Mapped, Lwl, Lwr, SameView, Target, At, Latest, Finished, Delayed;
    var x := LwlLoads(c, rs, rt, extra);
    var d := Lwl(c, rs, rt, extra).cpu;
    LoadedLatest(c, d, rt, x, interrupted, rt);
    var e := Flushed(d, interrupted);
    if Target(e.regs, rs', extra') == a {
      ViewReads(c, e, a, 0);
      var y := LwrLoads(e, rs', rt, extra');
      var f := Lwr(e, rs', rt, extra').cpu;
      ViewOnce(c, e, f);
      var word := LittleWord(c, a);
      LittleBytes(c, a);
      forall j | 0 <= j < 4 ensures ByteOf(y, j) == ByteOf(word, j) {
        assert LeftByte(c, At(a, 3), Latest(c.regs, rt), x, j) && RightByte(e, a, x, y, j);
        Halves(a, j);
        ViewReads(c, e, a, j);
      }
      SameBytes(y, word);
      forall g | 0 < g < 32 ensures Latest(f.regs, g) == if g == rt then word else Latest(c.regs, g) {
        LoadedLatest(c, d, rt, x, interrupted, g);
        LoadedLatest(e, f, rt, y, false, g);
      }
    }
  }

  /** LWR at a then LWL at a+3. */
  lemma RightThenLeft(c: Cpu, rs: int, extra: int, interrupted: bool, rs': int, extra': int, rt: int, a: int)
    requires IsCpu(c) && 0 <= rs < 32 && 0 <= rs' < 32 && 0 < rt < 32 && IsWord(a) && Accessible(c, a, false)
    requires Target(c.regs, rs, extra) == a
    ensures var first := Lwr(c, rs, rt, extra);
      && first.exception == NoException && IsCpu(first.cpu) && IsCpu(Flushed(first.cpu, interrupted))
      && var e := Flushed(first.cpu, interrupted);
         Target(e.regs, rs', extra') == At(a, 3) ==> PairLoaded(c, Lwl(e, rs', rt, extra'), rt, LittleWord(c, a))
  {
    hide ByteOf, Place, Mapped, Lwl, Lwr, SameView, Target, At, Latest, Finished, Delayed;
    var x := LwrLoads(c, rs, rt, extra);
    var d := Lwr(c, rs, rt, extra).cpu;
    LoadedLatest(c, d, rt, x, interrupted, rt);
    var e := Flushed(d, interrupted);
    if Target(e.regs, rs', extra') == At(a, 3) {
      ViewReads(c, e, a, 3);
      var y := LwlLoads(e, rs', rt, extra');
      var f := Lwl(e, rs', rt, extra').cpu;
      ViewOnce(c, e, f);
      var word := LittleWord(c, a);
      LittleBytes(c, a);
      forall j | 0 <= j < 4 ensures ByteOf(y, j) == ByteOf(word, j) {
        assert RightByte(c, a, Latest(c.regs, rt), x, j) && LeftByte(e, At(a, 3), x, y, j);
        Halves(a, j);
        ViewReads(c, e, a, j);
      }
      SameBytes(y, word);
      forall g | 0 < g < 32 ensures Latest(f.regs, g) == if g == rt then word else Latest(c.regs, g) {
        LoadedLatest(c, d, rt, x, interrupted, g);
        LoadedLatest(e, f, rt, y, false, g);
      }
    }
  }

  /** The base register of the second instruction is still what it was,
      unless rt or a load already pending goes to it. */
  lemma BaseKept(c: Cpu, d: Cpu, rt: int, x: int, interrupted: bool, rs: int)
    requires IsCpu(c) && 0 < rt < 32 && Loaded(c, d, rt, x) && 0 <= rs < 32 && rs != rt
    requires c.regs[LOAD_REG] != rs || rs == 0
    ensures Flushed(d, interrupted).regs[rs] == c.regs[rs]
  {
  }

  /** Both instructions name the same base register: rt may not be it, and no load to it may be pending. */
  lemma SameBase(c: Cpu, rs: int, offset: int, interrupted: bool, rt: int)
    requires IsCpu(c) && 0 <= rs < 32 && 0 < rt < 32 && rs != rt && (rs == 0 || c.regs[LOAD_REG] != rs)
    requires Accessible(c, Target(c.regs, rs, offset), false)
    ensures var a := Target(c.regs, rs, offset); var first := Lwl(c, rs, rt, offset + 3);
      && IsCpu(first.cpu) && IsCpu(Flushed(first.cpu, interrupted))
      && PairLoaded(c, Lwr(Flushed(first.cpu, interrupted), rs, rt, offset), rt, LittleWord(c, a))
    ensures var a := Target(c.regs, rs, offset); var first := Lwr(c, rs, rt, offset);
      && IsCpu(first.cpu) && IsCpu(Flushed(first.cpu, interrupted))
      && PairLoaded(c, Lwl(Flushed(first.cpu, interrupted), rs, rt, offset + 3), rt, LittleWord(c, a))
  {
    hide PairLoaded, Lwl, Lwr, Mapped, Target, At, Accessible, Flushed, Loaded, Latest, LittleWord, LeftByte, RightByte;
    var a := Target(c.regs, rs, offset);
    OffsetBy3(c.regs, rs, offset);
    AccessibleIs(c, a, false);
    var x := LwlLoads(c, rs, rt, offset + 3);
    LeftThenRight(c, rs, offset + 3, interrupted, rs, offset, rt, a);
    BaseKept(c, Lwl(c, rs, rt, offset + 3).cpu, rt, x, interrupted, rs);
    TargetKept(c.regs, Flushed(Lwl(c, rs, rt, offset + 3).cpu, interrupted).regs, rs, offset);
    var y := LwrLoads(c, rs, rt, offset);
    RightThenLeft(c, rs, offset, interrupted, rs, offset + 3, rt, a);
    BaseKept(c, Lwr(c, rs, rt, offset).cpu, rt, y, interrupted, rs);
    TargetKept(c.regs, Flushed(Lwr(c, rs, rt, offset).cpu, interrupted).regs, rs, offset + 3);
  }

  lemma AccessibleIs(c: Cpu, a: int, writing: bool)
    requires Accessible(c, a, writing)
    ensures Mapped(c.table, a, writing) && Mapped(c.table, At(a, 3), writing)
  {
    hide Mapped, At;
  }

  lemma TargetKept(regs: seq<int>, regs': seq<int>, rs: int, offset: int)
    requires |regs| == |regs'| == NUM_TOTAL_REGS && 0 <= rs < 32 && regs'[rs] == regs[rs]
    ensures Target(regs', rs, offset) == Target(regs, rs, offset)
  {
  }

  lemma OffsetBy3(regs: seq<int>, rs: int, offset: int)
    requires |regs| == NUM_TOTAL_REGS && 0 <= rs < 32
    ensures Target(regs, rs, offset + 3) == At(Target(regs, rs, offset), 3)
  {
  }

  // ----- the stores -----

  /** WriteMem of a word and the end of the instruction. */
  function WriteBack(c: Cpu, v: int, value: int): Ran
    requires IsCpu(c) && IsWord(v)
  {
    var fault := Fault(c.table, v, 4, true);
    if fault != NoException then Ran(fault, c.(regs := Trapped(c.regs, v)))
    else
      WordPlaces(c.table, v, 3, false);
      Ran(NoException, Cpu(Finished(c.regs, 0, 0), PutWord(c.mem, Place(c.table, v), value), Touched(c.table, v, true)))
  }

  /** OP_SWL. */
  function Swl(c: Cpu, rs: int, rt: int, extra: int): Ran
    requires IsCpu(c) && 0 <= rs < 32 && 0 <= rt < 32
  {
    var tmp := Target(c.regs, rs, extra);
    var k := tmp % 4;
    var fault := Fault(c.table, tmp - k, 4, false);
    if fault != NoException then Ran(fault, c.(regs := Trapped(c.regs, tmp - k)))
    else
      WordPlaces(c.table, tmp - k, 3, false);
      var value := KeepHigh(WordAt(c.mem, Place(c.table, tmp - k)), c.regs[rt], 3 - k);
      WriteBack(c.(table := Touched(c.table, tmp - k, false)), tmp - k, value)
  }

  /** OP_SWR. */
  function Swr(c: Cpu, rs: int, rt: int, extra: int): Ran
    requires IsCpu(c) && 0 <= rs < 32 && 0 <= rt < 32
  {
    var tmp := Target(c.regs, rs, extra);
    var k := tmp % 4;
    var fault := Fault(c.table, tmp - k, 4, false);
    if fault != NoException then Ran(fault, c.(regs := Trapped(c.regs, tmp - k)))
    else
      WordPlaces(c.table, tmp - k, 3, false);
      var value := KeepLow(WordAt(c.mem, Place(c.table, tmp - k)), c.regs[rt], k);
      WriteBack(c.(table := Touched(c.table, tmp - k, false)), tmp - k, value)
  }

  function Floor4(v: int): int { v - v % 4 }

  /** The physical home of user byte v. */
  function Home(c: Cpu, v: int): int {
    if Mapped(c.table, v, false) then Place(c.table, v) else -1
  }

  /** The memory cells of user bytes lo..hi-1 hold x's bytes from byte `from` on, and no other cell changed. */
  ghost predicate Wrote(c: Cpu, d: Cpu, lo: int, hi: int, x: int, from: int) {
    && IsCpu(c) && IsCpu(d) && SameView(c, d)
    && (forall i :: lo <= i < hi ==> 0 <= Home(c, i) < MEMORY_SIZE && d.mem[Home(c, i)] == ByteOf(x, from + (i - lo)))
    && (forall p :: 0 <= p < MEMORY_SIZE && d.mem[p] != c.mem[p] ==> exists i :: lo <= i < hi && Home(c, i) == p)
  }

  /** Writing back a word of which bytes s..e-1 are new. */
  lemma WroteBack(c: Cpu, v: int, value: int, s: int, e: int, x: int, from: int)
    requires IsCpu(c) && IsWord(v) && v % 4 == 0 && Mapped(c.table, v, true) && IsWord(value) && 0 <= s <= e <= 4
    requires Mapped(c.table, v, false) && 0 <= Place(c.table, v) <= MEMORY_SIZE - 4
    requires forall i :: 0 <= i < 4 ==>
      ByteOf(value, i) == if s <= i < e then ByteOf(x, from + (i - s)) else ByteOf(WordAt(c.mem, Place(c.table, v)), i)
    ensures WriteBack(c, v, value).exception == NoException
    ensures WriteBack(c, v, value).cpu.regs == Finished(c.regs, 0, 0)
    ensures Wrote(c, WriteBack(c, v, value).cpu, v + s, v + e, x, from)
  {
    hide ByteOf, WordAt, PutWord, Touched, Mapped, Place;
    NoFault(c.table, v, 4, true);
    WordAtBytes(c.mem, Place(c.table, v));
    PutWordAt(c.mem, Place(c.table, v), value);
    DelayedRegs(c.regs, 0, 0);
    var d := WriteBack(c, v, value).cpu;
    forall i | v + s <= i < v + e
      ensures 0 <= Home(c, i) < MEMORY_SIZE && d.mem[Home(c, i)] == ByteOf(x, from + (i - (v + s)))
    {
      WordPlaces(c.table, v, i - v, false);
    }
    forall p | 0 <= p < MEMORY_SIZE && d.mem[p] != c.mem[p] ensures exists i :: v + s <= i < v + e && Home(c, i) == p {
      var i := p - Place(c.table, v);
      WordPlaces(c.table, v, i, false);
      assert Home(c, v + i) == p;
    }
  }

  lemma WroteAfterRead(c: Cpu, v: int, d: Cpu, lo: int, hi: int, x: int, from: int)
    requires 0 <= v / PAGE_SIZE < |c.table| && Wrote(c.(table := Touched(c.table, v, false)), d, lo, hi, x, from)
    ensures Wrote(c, d, lo, hi, x, from)
  {
    hide ByteOf, Mapped, Place;
    var b := c.(table := Touched(c.table, v, false));
    assert forall i :: Home(b, i) == Home(c, i);
  }

  /** SWL at v writes the register's top bytes to v and below, down to the word boundary. */
  lemma SwlStores(c: Cpu, rs: int, rt: int, extra: int)
    requires IsCpu(c) && 0 <= rs < 32 && 0 <= rt < 32
    requires Mapped(c.table, Target(c.regs, rs, extra), true)
    ensures var (r, v) := (Swl(c, rs, rt, extra), Target(c.regs, rs, extra));
      && r.exception == NoException && r.cpu.regs == Finished(c.regs, 0, 0)
      && Wrote(c, r.cpu, Floor4(v), v + 1, c.regs[rt], Floor4(v) - v + 3)
  {
    hide ByteOf, KeepHigh, WordAt, Place, Mapped, Touched, Wrote, WriteBack;
    var v := Target(c.regs, rs, extra);
    var k := v % 4;
    WriteIsRead(c.table, v);
    SameWord(c.table, v, false);
    SameWord(c.table, v, true);
    WordBytes(c, v - k, 3);
    var word := WordAt(c.mem, Place(c.table, v - k));
    KeepHighBytes(word, c.regs[rt], 3 - k);
    TouchedPage(c.table, v - k);
    var b := c.(table := Touched(c.table, v - k, false));
    WroteBack(b, v - k, KeepHigh(word, c.regs[rt], 3 - k), 0, k + 1, c.regs[rt], 3 - k);
    WroteAfterRead(c, v - k, Swl(c, rs, rt, extra).cpu, v - k, v + 1, c.regs[rt], 3 - k);
  }

  lemma TouchedPage(table: seq<Entry>, v: int)
    requires Mapped(table, v, false)
    ensures 0 <= v / PAGE_SIZE < |table|
  {
  }

  /** SWR at v writes the register's bottom bytes to v and above, up to the word boundary. */
  lemma SwrStores(c: Cpu, rs: int, rt: int, extra: int)
    requires IsCpu(c) && 0 <= rs < 32 && 0 <= rt < 32
    requires Mapped(c.table, Target(c.regs, rs, extra), true)
    ensures var (r, v) := (Swr(c, rs, rt, extra), Target(c.regs, rs, extra));
      && r.exception == NoException && r.cpu.regs == Finished(c.regs, 0, 0)
      && Wrote(c, r.cpu, v, Floor4(v) + 4, c.regs[rt], 0)
  {
    hide ByteOf, KeepLow, WordAt, Place, Mapped, Touched, Wrote, WriteBack;
    var v := Target(c.regs, rs, extra);
    var k := v % 4;
    WriteIsRead(c.table, v);
    SameWord(c.table, v, false);
    SameWord(c.table, v, true);
    WordBytes(c, v - k, 3);
    var word := WordAt(c.mem, Place(c.table, v - k));
    KeepLowBytes(word, c.regs[rt], k);
    TouchedPage(c.table, v - k);
    var b := c.(table := Touched(c.table, v - k, false));
    WroteBack(b, v - k, KeepLow(word, c.regs[rt], k), k, 4, c.regs[rt], 0);
    WroteAfterRead(c, v - k, Swr(c, rs, rt, extra).cpu, v, v - k + 4, c.regs[rt], 0);
  }

  /** Only cells of the unaligned word at a differ. */
  ghost predicate OnlyWord(c: Cpu, d: Cpu, a: int)
    requires |c.mem| == |d.mem| == MEMORY_SIZE
  {
    forall p :: 0 <= p < MEMORY_SIZE && d.mem[p] != c.mem[p] ==> exists j :: 0 <= j < 4 && Home(c, At(a, j)) == p
  }

  /** The four memory cells of the unaligned word at a hold x, and no other cell changed. */
  ghost predicate Stored(c: Cpu, d: Cpu, a: int, x: int) {
    && IsCpu(c) && IsCpu(d) && SameView(c, d) && OnlyWord(c, d, a)
    && (forall j :: 0 <= j < 4 ==> 0 <= Home(c, At(a, j)) < MEMORY_SIZE && d.mem[Home(c, At(a, j))] == ByteOf(x, j))
  }

  lemma WroteTwice(c: Cpu, d: Cpu, e: Cpu, a: int, x: int)
    requires IsCpu(c) && IsCpu(d) && IsCpu(e) && SameView(c, d) && SameView(d, e) && OnlyWord(c, e, a)
    requires forall j :: 0 <= j < 4 ==> 0 <= Home(c, At(a, j)) < MEMORY_SIZE && e.mem[Home(c, At(a, j))] == ByteOf(x, j)
    ensures Stored(c, e, a, x)
  {
    hide IsRegs, IsMemory, OnlyWord, Home, At, ByteOf;
    ViewOnce(c, d, e);
  }

  /** The low n bytes of one word and the others of another. */
  function Mixed(low: int, high: int, n: int): int {
    Word4(ByteOf(if 0 < n then low else high, 0), ByteOf(if 1 < n then low else high, 1),
          ByteOf(if 2 < n then low else high, 2), ByteOf(if 3 < n then low else high, 3))
  }

  lemma MixedBytes(low: int, high: int, n: int, j: int)
    requires 0 <= j < 4
    ensures IsWord(Mixed(low, high, n))
        && ByteOf(Mixed(low, high, n), j) == if j < n then ByteOf(low, j) else ByteOf(high, j)
  {
    hide ByteOf, Word4;
    var (b0, b1) := (ByteOf(if 0 < n then low else high, 0), ByteOf(if 1 < n then low else high, 1));
    var (b2, b3) := (ByteOf(if 2 < n then low else high, 2), ByteOf(if 3 < n then low else high, 3));
    ByteRange(if 0 < n then low else high, 0);
    ByteRange(if 1 < n then low else high, 1);
    ByteRange(if 2 < n then low else high, 2);
    ByteRange(if 3 < n then low else high, 3);
    BytesOfWord4(b0, b1, b2, b3);
  }

  lemma MixedSame(x: int, n: int)
    requires IsWord(x)
    ensures Mixed(x, x, n) == x
  {
    hide ByteOf, Word4;
    Word4OfBytes(x);
  }

  /** What register r holds once the pending load has landed. */
  function Landed(regs: seq<int>, r: int): int
    requires |regs| == NUM_TOTAL_REGS && 0 <= r < 32
  {
    if r == 0 then 0 else Latest(regs, r)
  }

  /** A later write to other bytes, even through another page on the same frame, leaves byte u alone. */
  lemma Survives(d: Cpu, e: Cpu, lo: int, hi: int, x: int, from: int, u: int)
    requires Wrote(d, e, lo, hi, x, from) && Mapped(d.table, u, false)
    requires forall i :: lo <= i < hi ==> Offset(i) != Offset(u)
    ensures e.mem[Home(d, u)] == d.mem[Home(d, u)]
  {
    hide ByteOf, Mapped;
    if e.mem[Home(d, u)] != d.mem[Home(d, u)] {
      var i :| lo <= i < hi && Home(d, i) == Home(d, u);
      assert Mapped(d.table, i, false) && Offset(i) != Offset(u);
      PlacesDiffer(d.table, i, u);
    }
  }

  function Offset(v: int): int { v % PAGE_SIZE }

  lemma OffsetsDiffer(a: int, j: int, i: int)
    requires 0 <= j < 4 && 0 <= i < 4 && i != j
    ensures Offset(At(a, j)) != Offset(At(a, i))
  {
    hide At, Offset;
    AtMod4(a, j);
    AtMod4(a, i);
    OffsetMod4(At(a, j));
    OffsetMod4(At(a, i));
  }

  lemma AtMod4(a: int, j: int)
    ensures At(a, j) % 4 == (a + j) % 4
  {
    var q := (a + j) / W;
    assert a + j == q * W + At(a, j);
    assert q * W == 4 * (q * (W / 4));
  }

  lemma OffsetMod4(v: int)
    ensures Offset(v) % 4 == v % 4
  {
    assert v == (v / PAGE_SIZE) * PAGE_SIZE + Offset(v);
  }

  lemma LeftRightStoredOnly(c: Cpu, d: Cpu, e: Cpu, a: int, x: int, y: int)
    requires IsWord(a) && IsCpu(c) && Accessible(c, a, true)
    requires var b := At(a, 3); Wrote(c, d, Floor4(b), b + 1, x, Floor4(b) - b + 3)
    requires Wrote(d, e, a, Floor4(a) + 4, y, 0)
    ensures OnlyWord(c, e, a)
  {
    hide ByteOf, Mapped, Place, At, Offset;
    var b := At(a, 3);
    var (k, r) := (b % 4, a % 4);
    forall p | 0 <= p < MEMORY_SIZE && e.mem[p] != c.mem[p] ensures exists j :: 0 <= j < 4 && Home(c, At(a, j)) == p {
      if d.mem[p] != c.mem[p] {
        var i :| b - k <= i < b + 1 && Home(c, i) == p;
        Halves(a, i - b + 3);
        assert Home(c, At(a, i - b + 3)) == p;
      } else {
        var i :| a <= i < a - r + 4 && Home(d, i) == p;
        Halves(a, i - a);
        assert Home(c, At(a, i - a)) == p;
      }
    }
  }

  /** The two writes of a pair, left first: the second one has the last word. */
  lemma LeftRightStored(c: Cpu, d: Cpu, e: Cpu, a: int, x: int, y: int)
    requires IsWord(a) && IsCpu(c) && Accessible(c, a, true)
    requires var b := At(a, 3); Wrote(c, d, Floor4(b), b + 1, x, Floor4(b) - b + 3)
    requires Wrote(d, e, a, Floor4(a) + 4, y, 0)
    ensures Stored(c, e, a, Mixed(y, x, 4 - a % 4))
  {
    hide ByteOf, Mapped, Place, At, Offset, Mixed, Stored;
    var r := a % 4;
    forall j | 0 <= j < 4
      ensures 0 <= Home(c, At(a, j)) < MEMORY_SIZE && e.mem[Home(c, At(a, j))] == ByteOf(Mixed(y, x, 4 - r), j)
    {
      MixedBytes(y, x, 4 - r, j);
      LeftRightByte(c, d, e, a, x, y, j);
    }
    LeftRightStoredOnly(c, d, e, a, x, y);
    WroteTwice(c, d, e, a, Mixed(y, x, 4 - r));
  }

  lemma LeftRightByte(c: Cpu, d: Cpu, e: Cpu, a: int, x: int, y: int, j: int)
    requires IsWord(a) && IsCpu(c) && Accessible(c, a, true) && 0 <= j < 4
    requires var b := At(a, 3); Wrote(c, d, Floor4(b), b + 1, x, Floor4(b) - b + 3)
    requires Wrote(d, e, a, Floor4(a) + 4, y, 0)
    ensures 0 <= Home(c, At(a, j)) < MEMORY_SIZE
    ensures e.mem[Home(c, At(a, j))] == if j + a % 4 < 4 then ByteOf(y, j) else ByteOf(x, j)
  {
    hide ByteOf, Mapped, Place, At, Offset;
    var b := At(a, 3);
    var (k, r) := (b % 4, a % 4);
    Spans(c, a, j, true);
    WriteIsRead(c.table, At(a, j));
    Halves(a, j);
    if j + r < 4 {
      assert Home(d, a + j) == Home(c, a + j);
    } else {
      assert d.mem[Home(c, b - 3 + j)] == ByteOf(x, 3 - k + (b - 3 + j - (b - k)));
      forall i | a <= i < a - r + 4 ensures Offset(i) != Offset(At(a, j)) {
        Halves(a, i - a);
        OffsetsDiffer(a, i - a, j);
      }
      Survives(d, e, a, a - r + 4, y, 0, At(a, j));
    }
  }

  lemma RightLeftStoredOnly(c: Cpu, d: Cpu, e: Cpu, a: int, x: int, y: int)
    requires IsWord(a) && IsCpu(c) && Accessible(c, a, true)
    requires Wrote(c, d, a, Floor4(a) + 4, x, 0)
    requires var b := At(a, 3); Wrote(d, e, Floor4(b), b + 1, y, Floor4(b) - b + 3)
    ensures OnlyWord(c, e, a)
  {
    hide ByteOf, Mapped, Place, At, Offset;
    var b := At(a, 3);
    var (k, r) := (b % 4, a % 4);
    forall p | 0 <= p < MEMORY_SIZE && e.mem[p] != c.mem[p] ensures exists j :: 0 <= j < 4 && Home(c, At(a, j)) == p {
      if d.mem[p] == c.mem[p] {
        var i :| b - k <= i < b + 1 && Home(d, i) == p;
        Halves(a, i - b + 3);
        assert Home(c, At(a, i - b + 3)) == p;
      } else {
        var i :| a <= i < a - r + 4 && Home(c, i) == p;
        Halves(a, i - a);
        assert Home(c, At(a, i - a)) == p;
      }
    }
  }

  /** The two writes of a pair, right first. */
  lemma RightLeftStored(c: Cpu, d: Cpu, e: Cpu, a: int, x: int, y: int)
    requires IsWord(a) && IsCpu(c) && Accessible(c, a, true)
    requires Wrote(c, d, a, Floor4(a) + 4, x, 0)
    requires var b := At(a, 3); Wrote(d, e, Floor4(b), b + 1, y, Floor4(b) - b + 3)
    ensures Stored(c, e, a, Mixed(x, y, 3 - At(a, 3) % 4))
  {
    hide ByteOf, Mapped, Place, At, Offset, Mixed, Stored;
    var n := 3 - At(a, 3) % 4;
    forall j | 0 <= j < 4
      ensures 0 <= Home(c, At(a, j)) < MEMORY_SIZE && e.mem[Home(c, At(a, j))] == ByteOf(Mixed(x, y, n), j)
    {
      MixedBytes(x, y, n, j);
      RightLeftByte(c, d, e, a, x, y, j);
    }
    RightLeftStoredOnly(c, d, e, a, x, y);
    WroteTwice(c, d, e, a, Mixed(x, y, n));
  }

  lemma RightLeftByte(c: Cpu, d: Cpu, e: Cpu, a: int, x: int, y: int, j: int)
    requires IsWord(a) && IsCpu(c) && Accessible(c, a, true) && 0 <= j < 4
    requires Wrote(c, d, a, Floor4(a) + 4, x, 0)
    requires var b := At(a, 3); Wrote(d, e, Floor4(b), b + 1, y, Floor4(b) - b + 3)
    ensures 0 <= Home(c, At(a, j)) < MEMORY_SIZE
    ensures e.mem[Home(c, At(a, j))] == if j + At(a, 3) % 4 < 3 then ByteOf(x, j) else ByteOf(y, j)
  {
    hide ByteOf, Mapped, Place, At, Offset;
    var b := At(a, 3);
    var (k, r) := (b % 4, a % 4);
    Spans(c, a, j, true);
    WriteIsRead(c.table, At(a, j));
    Halves(a, j);
    if j + k >= 3 {
      assert e.mem[Home(d, b - 3 + j)] == ByteOf(y, 3 - k + (b - 3 + j - (b - k)));
      assert Home(d, At(a, j)) == Home(c, At(a, j));
    } else {
      assert d.mem[Home(c, a + j)] == ByteOf(x, j);
      forall i | b - k <= i < b + 1 ensures Offset(i) != Offset(At(a, j)) {
        Halves(a, i - b + 3);
        OffsetsDiffer(a, i - b + 3, j);
      }
      Survives(d, e, b - k, b + 1, y, 3 - k, At(a, j));
    }
  }

  /** After any successful store the program sees in register r what it would have seen, landed or not. */
  lemma StoreKeeps(c: Cpu, d: Cpu, interrupted: bool, r: int)
    requires IsCpu(c) && d.regs == Finished(c.regs, 0, 0) && 0 <= r < 32
    ensures IsRegs(d.regs) && IsRegs(Flushed(d, interrupted).regs)
        && Flushed(d, interrupted).regs[r] == Landed(c.regs, r)
  {
  }

  lemma FlushedWrote(c: Cpu, d: Cpu, interrupted: bool, lo: int, hi: int, x: int, from: int)
    requires Wrote(c, d, lo, hi, x, from) && IsRegs(d.regs) && IsRegs(Flushed(d, interrupted).regs)
    ensures Wrote(c, Flushed(d, interrupted), lo, hi, x, from)
  {
    hide ByteOf, Mapped, Place, Home;
  }

  lemma ViewAccess(c: Cpu, d: Cpu, v: int)
    requires SameView(c, d) && Mapped(c.table, v, true)
    ensures Mapped(d.table, v, true)
  {
    hide Mapped;
  }

  lemma WroteView(c: Cpu, d: Cpu, lo: int, hi: int, x: int, from: int)
    requires Wrote(c, d, lo, hi, x, from)
    ensures SameView(c, d) && IsCpu(d)
  {
  }

  /** The state the second store of a pair starts from, after the first one and possibly an interrupt. */
  lemma Between(c: Cpu, d: Cpu, interrupted: bool, lo: int, hi: int, x: int, from: int, rt: int)
    requires Wrote(c, d, lo, hi, x, from) && d.regs == Finished(c.regs, 0, 0)
    requires 0 <= rt < 32
    ensures IsCpu(d) && IsCpu(Flushed(d, interrupted)) && Flushed(d, interrupted).regs[rt] == Landed(c.regs, rt)
    ensures SameView(c, Flushed(d, interrupted)) && Wrote(c, Flushed(d, interrupted), lo, hi, x, from)
  {
    StoreKeeps(c, d, interrupted, rt);
    hide Wrote, SameView, Finished, Delayed, Landed;
    WroteView(c, d, lo, hi, x, from);
    FlushedWrote(c, d, interrupted, lo, hi, x, from);
    WroteView(c, Flushed(d, interrupted), lo, hi, x, from);
  }

  /** From e, SWR at a completes the store at a begun in c, leaving x there. */
  ghost predicate RightCompletes(c: Cpu, e: Cpu, rs: int, rt: int, extra: int, a: int, x: int)
    requires 0 <= rs < 32 && 0 <= rt < 32
  {
    && IsCpu(e)
    && (Target(e.regs, rs, extra) == a ==>
          Swr(e, rs, rt, extra).exception == NoException && Stored(c, Swr(e, rs, rt, extra).cpu, a, x))
  }

  /** From e, SWL at a+3 completes the store at a begun in c, leaving x there. */
  ghost predicate LeftCompletes(c: Cpu, e: Cpu, rs: int, rt: int, extra: int, a: int, x: int)
    requires 0 <= rs < 32 && 0 <= rt < 32
  {
    && IsCpu(e)
    && (Target(e.regs, rs, extra) == At(a, 3) ==>
          Swl(e, rs, rt, extra).exception == NoException && Stored(c, Swl(e, rs, rt, extra).cpu, a, x))
  }

  lemma SecondRight(c: Cpu, e: Cpu, rs: int, rt: int, extra: int, a: int, x: int)
    requires 0 <= rs < 32 && 0 <= rt < 32 && IsWord(a) && IsCpu(c) && IsCpu(e) && Accessible(c, a, true)
    requires SameView(c, e) && var b := At(a, 3); Wrote(c, e, Floor4(b), b + 1, x, Floor4(b) - b + 3)
    requires Target(e.regs, rs, extra) == a
    ensures Swr(e, rs, rt, extra).exception == NoException
    ensures Stored(c, Swr(e, rs, rt, extra).cpu, a, Mixed(e.regs[rt], x, 4 - a % 4))
  {
    ViewAccess(c, e, a);
    hide *;
    SwrStores(e, rs, rt, extra);
    LeftRightStored(c, e, Swr(e, rs, rt, extra).cpu, a, x, e.regs[rt]);
  }

  lemma SecondLeft(c: Cpu, e: Cpu, rs: int, rt: int, extra: int, a: int, x: int)
    requires 0 <= rs < 32 && 0 <= rt < 32 && IsWord(a) && IsCpu(c) && IsCpu(e) && Accessible(c, a, true)
    requires SameView(c, e) && Wrote(c, e, a, Floor4(a) + 4, x, 0)
    requires Target(e.regs, rs, extra) == At(a, 3)
    ensures Swl(e, rs, rt, extra).exception == NoException
    ensures Stored(c, Swl(e, rs, rt, extra).cpu, a, Mixed(x, e.regs[rt], 3 - At(a, 3) % 4))
  {
    ViewAccess(c, e, At(a, 3));
    hide *;
    SwlStores(e, rs, rt, extra);
    RightLeftStored(c, e, Swl(e, rs, rt, extra).cpu, a, x, e.regs[rt]);
  }

  lemma FirstLeft(c: Cpu, rs: int, extra: int, interrupted: bool, rt: int, a: int)
    requires IsCpu(c) && 0 <= rs < 32 && 0 <= rt < 32 && Mapped(c.table, At(a, 3), true)
    requires Target(c.regs, rs, extra) == At(a, 3)
    ensures var d := Swl(c, rs, rt, extra); d.exception == NoException && IsCpu(d.cpu)
    ensures var e := Flushed(Swl(c, rs, rt, extra).cpu, interrupted); var b := At(a, 3);
      && IsCpu(e) && e.regs[rt] == Landed(c.regs, rt) && SameView(c, e)
      && Wrote(c, e, Floor4(b), b + 1, c.regs[rt], Floor4(b) - b + 3)
  {
    var (x, b) := (c.regs[rt], At(a, 3));
    hide *;
    SwlStores(c, rs, rt, extra);
    Between(c, Swl(c, rs, rt, extra).cpu, interrupted, Floor4(b), b + 1, x, Floor4(b) - b + 3, rt);
  }

  lemma FirstRight(c: Cpu, rs: int, extra: int, interrupted: bool, rt: int, a: int)
    requires IsCpu(c) && 0 <= rs < 32 && 0 <= rt < 32 && Mapped(c.table, a, true)
    requires Target(c.regs, rs, extra) == a
    ensures var d := Swr(c, rs, rt, extra); d.exception == NoException && IsCpu(d.cpu)
    ensures var e := Flushed(Swr(c, rs, rt, extra).cpu, interrupted);
      && IsCpu(e) && e.regs[rt] == Landed(c.regs, rt) && SameView(c, e) && Wrote(c, e, a, Floor4(a) + 4, c.regs[rt], 0)
  {
    var x := c.regs[rt];
    hide *;
    SwrStores(c, rs, rt, extra);
    Between(c, Swr(c, rs, rt, extra).cpu, interrupted, a, Floor4(a) + 4, x, 0, rt);
  }

  /** SWL at a+3 then SWR at a change no cell but the four at a..a+3.  The first store uses what rt holds, the second
      what it holds once a pending load has landed; where both write, the second counts. */
  lemma StoreLeftRight(c: Cpu, rs: int, extra: int, interrupted: bool, rs': int, extra': int, rt: int, a: int)
    requires IsCpu(c) && 0 <= rs < 32 && 0 <= rs' < 32 && 0 <= rt < 32 && IsWord(a) && Accessible(c, a, true)
    requires Target(c.regs, rs, extra) == At(a, 3)
    ensures Swl(c, rs, rt, extra).exception == NoException && IsCpu(Swl(c, rs, rt, extra).cpu)
    ensures RightCompletes(c, Flushed(Swl(c, rs, rt, extra).cpu, interrupted), rs', rt, extra', a,
                           Mixed(Landed(c.regs, rt), c.regs[rt], 4 - a % 4))
  {
    assert Mapped(c.table, a, true) && Mapped(c.table, At(a, 3), true);
    var x := c.regs[rt];
    hide Mapped, Swl, Target, At, Wrote, SameView, Flushed, Floor4, IsRegs, IsMemory, Stored, Swr, Accessible, IsWord;
    hide Mixed, Landed;
    FirstLeft(c, rs, extra, interrupted, rt, a);
    var e := Flushed(Swl(c, rs, rt, extra).cpu, interrupted);
    if Target(e.regs, rs', extra') == a {
      SecondRight(c, e, rs', rt, extra', a, x);
    }
  }

  /** SWR at a then SWL at a+3. */
  lemma StoreRightLeft(c: Cpu, rs: int, extra: int, interrupted: bool, rs': int, extra': int, rt: int, a: int)
    requires IsCpu(c) && 0 <= rs < 32 && 0 <= rs' < 32 && 0 <= rt < 32 && IsWord(a) && Accessible(c, a, true)
    requires Target(c.regs, rs, extra) == a
    ensures Swr(c, rs, rt, extra).exception == NoException && IsCpu(Swr(c, rs, rt, extra).cpu)
    ensures LeftCompletes(c, Flushed(Swr(c, rs, rt, extra).cpu, interrupted), rs', rt, extra', a,
                          Mixed(c.regs[rt], Landed(c.regs, rt), 3 - At(a, 3) % 4))
  {
    assert Mapped(c.table, a, true) && Mapped(c.table, At(a, 3), true);
    var x := c.regs[rt];
    hide Mapped, Swl, Target, At, Wrote, SameView, Flushed, Floor4, IsRegs, IsMemory, Stored, Swr, Accessible, IsWord;
    hide Mixed, Landed;
    FirstRight(c, rs, extra, interrupted, rt, a);
    var e := Flushed(Swr(c, rs, rt, extra).cpu, interrupted);
    if Target(e.regs, rs', extra') == At(a, 3) {
      SecondLeft(c, e, rs', rt, extra', a, x);
    }
  }

  /** With no load to rt pending, either pair stores rt's four bytes. */
  lemma StoresRegister(c: Cpu, rt: int, n: int)
    requires IsCpu(c) && 0 <= rt < 32 && (rt == 0 || c.regs[LOAD_REG] != rt)
    ensures Mixed(Landed(c.regs, rt), c.regs[rt], n) == c.regs[rt] == Mixed(c.regs[rt], Landed(c.regs, rt), n)
  {
    hide Mixed;
    MixedSame(c.regs[rt], n);
  }

  /** After a store, a base register with no load to it pending still holds what it did. */
  lemma BaseAfterStore(c: Cpu, d: Cpu, interrupted: bool, rs: int, offset: int)
    requires IsCpu(c) && d.regs == Finished(c.regs, 0, 0) && 0 <= rs < 32 && (rs == 0 || c.regs[LOAD_REG] != rs)
    ensures IsRegs(Flushed(d, interrupted).regs)
    ensures Target(Flushed(d, interrupted).regs, rs, offset) == Target(c.regs, rs, offset)
  {
    StoreKeeps(c, d, interrupted, rs);
    hide Flushed, Finished;
  }

  /** Both stores name the same base register: no load to it may be pending. */
  lemma SameBaseLeftRight(c: Cpu, rs: int, offset: int, interrupted: bool, rt: int)
    requires IsCpu(c) && 0 <= rs < 32 && 0 <= rt < 32 && (rs == 0 || c.regs[LOAD_REG] != rs)
    requires Accessible(c, Target(c.regs, rs, offset), true)
    ensures var a := Target(c.regs, rs, offset);
      var first := Swl(c, rs, rt, offset + 3);
      var e := Flushed(first.cpu, interrupted);
      && first.exception == NoException && IsCpu(e) && Swr(e, rs, rt, offset).exception == NoException
      && Stored(c, Swr(e, rs, rt, offset).cpu, a, Mixed(Landed(c.regs, rt), c.regs[rt], 4 - a % 4))
  {
    var a := Target(c.regs, rs, offset);
    OffsetBy3(c.regs, rs, offset);
    assert Mapped(c.table, At(a, 3), true);
    assert IsWord(a);
    var first := Swl(c, rs, rt, offset + 3);
    hide *;
    SwlStores(c, rs, rt, offset + 3);
    StoreLeftRight(c, rs, offset + 3, interrupted, rs, offset, rt, a);
    BaseAfterStore(c, first.cpu, interrupted, rs, offset);
    RightDone(c, Flushed(first.cpu, interrupted), rs, rt, offset, a, Mixed(Landed(c.regs, rt), c.regs[rt], 4 - a % 4));
  }

  lemma RightDone(c: Cpu, e: Cpu, rs: int, rt: int, extra: int, a: int, x: int)
    requires 0 <= rs < 32 && 0 <= rt < 32 && RightCompletes(c, e, rs, rt, extra, a, x)
    requires IsCpu(e) && Target(e.regs, rs, extra) == a
    ensures Swr(e, rs, rt, extra).exception == NoException && Stored(c, Swr(e, rs, rt, extra).cpu, a, x)
  {
    hide Swr, Stored, Target;
  }

  lemma SameBaseRightLeft(c: Cpu, rs: int, offset: int, interrupted: bool, rt: int)
    requires IsCpu(c) && 0 <= rs < 32 && 0 <= rt < 32 && (rs == 0 || c.regs[LOAD_REG] != rs)
    requires Accessible(c, Target(c.regs, rs, offset), true)
    ensures var a := Target(c.regs, rs, offset);
      var first := Swr(c, rs, rt, offset);
      var e := Flushed(first.cpu, interrupted);
      && first.exception == NoException && IsCpu(e) && Swl(e, rs, rt, offset + 3).exception == NoException
      && Stored(c, Swl(e, rs, rt, offset + 3).cpu, a, Mixed(c.regs[rt], Landed(c.regs, rt), 3 - At(a, 3) % 4))
  {
    var a := Target(c.regs, rs, offset);
    OffsetBy3(c.regs, rs, offset);
    assert Mapped(c.table, a, true);
    assert IsWord(a);
    var first := Swr(c, rs, rt, offset);
    hide *;
    SwrStores(c, rs, rt, offset);
    StoreRightLeft(c, rs, offset, interrupted, rs, offset + 3, rt, a);
    BaseAfterStore(c, first.cpu, interrupted, rs, offset + 3);
    LeftDone(c, Flushed(first.cpu, interrupted), rs, rt, offset + 3, a,
             Mixed(c.regs[rt], Landed(c.regs, rt), 3 - At(a, 3) % 4));
  }

  lemma LeftDone(c: Cpu, e: Cpu, rs: int, rt: int, extra: int, a: int, x: int)
    requires 0 <= rs < 32 && 0 <= rt < 32 && LeftCompletes(c, e, rs, rt, extra, a, x)
    requires IsCpu(e) && Target(e.regs, rs, extra) == At(a, 3)
    ensures Swl(e, rs, rt, extra).exception == NoException && Stored(c, Swl(e, rs, rt, extra).cpu, a, x)
  {
    hide Swl, Stored, Target, At;
  }

  /** The load pair reads back what the store pair wrote. */
  lemma StoredReads(c: Cpu, d: Cpu, a: int, x: int)
    requires IsWord(a) && IsWord(x) && Stored(c, d, a, x) && Accessible(c, a, false)
    ensures Accessible(d, a, false) && LittleWord(d, a) == x
  {
    hide ByteOf, Mapped, Place, At;
    assert Accessible(d, a, false);
    var y := LittleWord(d, a);
    LittleBytes(d, a);
    forall j | 0 <= j < 4 ensures ByteOf(y, j) == ByteOf(x, j) {
      assert Mapped(d.table, At(a, j), false);
      assert Home(c, At(a, j)) == Place(d.table, At(a, j));
    }
    SameBytes(y, x);
  }
}
