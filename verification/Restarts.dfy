/** Where an instruction leaves the program counters, and what happens when the kernel repairs a fault and the
    instruction runs again (machine/mipssim.cc, machine/machine.cc). */
module Restarts {
  import opened MipsMemory
  import opened Unaligned

  /** A finished instruction moves the counters on by one: the next one runs, and after it the one four bytes
      further. */
  lemma CountersMove(regs: seq<int>, nextReg: int, nextValue: int)
    requires IsRegs(regs) && 0 <= nextReg < 32 && IsWord(nextValue)
    ensures var after := Finished(regs, nextReg, nextValue);
      && after[PREV_PC_REG] == regs[PC_REG] && after[PC_REG] == regs[NEXT_PC_REG]
      && after[NEXT_PC_REG] == (regs[NEXT_PC_REG] + 4) % W
      && (regs[NEXT_PC_REG] == (regs[PC_REG] + 4) % W ==> after[NEXT_PC_REG] == (after[PC_REG] + 4) % W)
  {
  }

  /** The program cannot tell the two apart. */
  ghost predicate SameProgram(c: Cpu, d: Cpu) {
    && IsCpu(c) && IsCpu(d) && d.mem == c.mem && d.table == c.table
    && d.regs[PC_REG] == c.regs[PC_REG] && d.regs[NEXT_PC_REG] == c.regs[NEXT_PC_REG]
    && forall g :: 0 < g < 32 ==> Latest(d.regs, g) == Latest(c.regs, g)
  }

  lemma TrappedRegs(regs: seq<int>, v: int)
    requires IsRegs(regs) && IsWord(v)
    ensures IsRegs(Trapped(regs, v))
  {
    DelayedRegs(regs[BAD_VADDR_REG := v], 0, 0);
  }

  /** A trap records the address and finishes the pending load; the program sees no other difference. */
  lemma TrapIsUnseen(c: Cpu, v: int)
    requires IsCpu(c) && IsWord(v)
    ensures SameProgram(c, c.(regs := Trapped(c.regs, v))) && Trapped(c.regs, v)[BAD_VADDR_REG] == v
    ensures forall g :: 0 <= g < 32 ==> Trapped(c.regs, v)[g] == Landed(c.regs, g)
  {
    TrappedRegs(c.regs, v);
  }

  /** An interrupt between two instructions finishes the pending load too, and no program sees it. */
  lemma FlushIsUnseen(c: Cpu)
    requires IsCpu(c)
    ensures var d := Flushed(c, true);
      && SameProgram(c, d) && forall g :: 0 < g < 32 ==> d.regs[g] == Landed(c.regs, g) == Latest(d.regs, g)
  {
    DelayedRegs(c.regs, 0, 0);
  }

  /** Whatever faults, faults before it has done anything: the counters still point at it, memory is as it was, and the
      program sees the same registers. */
  lemma FaultsCleanly(c: Cpu, rs: int, rt: int, extra: int)
    requires IsCpu(c) && 0 <= rs < 32 && 0 <= rt < 32
    ensures var v := Target(c.regs, rs, extra) - Target(c.regs, rs, extra) % 4;
      && (Lwl(c, rs, rt, extra).exception != NoException ==>
            Lwl(c, rs, rt, extra).cpu == c.(regs := Trapped(c.regs, v)))
      && (Lwr(c, rs, rt, extra).exception != NoException ==>
            Lwr(c, rs, rt, extra).cpu == c.(regs := Trapped(c.regs, v)))
      && (Swl(c, rs, rt, extra).exception != NoException ==>
            Swl(c, rs, rt, extra).cpu.regs == Trapped(c.regs, v) && Swl(c, rs, rt, extra).cpu.mem == c.mem)
      && (Swr(c, rs, rt, extra).exception != NoException ==>
            Swr(c, rs, rt, extra).cpu.regs == Trapped(c.regs, v) && Swr(c, rs, rt, extra).cpu.mem == c.mem)
  {
    hide Fault, Trapped, Finished, KeepLow, KeepHigh, WordAt, PutWord, Touched, Target, Latest;
  }

  /** After a trap the instruction finds the same address if and only if its base register has no other value
      pending. */
  lemma SameTarget(regs: seq<int>, v: int, rs: int, extra: int)
    requires IsRegs(regs) && IsWord(v) && 0 <= rs < 32
    ensures Target(Trapped(regs, v), rs, extra) == Target(regs, rs, extra) <==> Landed(regs, rs) == regs[rs]
  {
    assert Trapped(regs, v)[rs] == Landed(regs, rs);
    hide Trapped;
    SumsDiffer(Landed(regs, rs), regs[rs], extra);
  }

  lemma SumsDiffer(x: int, y: int, e: int)
    requires IsWord(x) && IsWord(y)
    ensures (x + e) % W == (y + e) % W <==> x == y
  {
    if (x + e) % W == (y + e) % W {
      var (p, q) := ((x + e) / W, (y + e) / W);
      assert x - y == (p - q) * W;
      assert p == q;
    }
  }

  // ----- the same instruction again, on a repaired page table -----

  lemma LwlIs(c: Cpu, rs: int, rt: int, extra: int)
    requires IsCpu(c) && 0 <= rs < 32 && 0 <= rt < 32
    ensures var v := Target(c.regs, rs, extra); var r := Lwl(c, rs, rt, extra);
      && r.exception == Fault(c.table, v - v % 4, 4, false)
      && (r.exception == NoException ==>
            && Mapped(c.table, v - v % 4, false) && 0 <= Place(c.table, v - v % 4) <= MEMORY_SIZE - 4
            && r.cpu.mem == c.mem && r.cpu.table == Touched(c.table, v - v % 4, false)
            && r.cpu.regs
               == Finished(c.regs, rt,
                           KeepLow(Latest(c.regs, rt), WordAt(c.mem, Place(c.table, v - v % 4)), 3 - v % 4)))
  {
    ReadsInside(c, Target(c.regs, rs, extra));
    hide Finished, KeepLow, WordAt, Touched, Latest, Trapped, Fault, Mapped, Place, Target;
  }

  lemma LwrIs(c: Cpu, rs: int, rt: int, extra: int)
    requires IsCpu(c) && 0 <= rs < 32 && 0 <= rt < 32
    ensures var v := Target(c.regs, rs, extra); var r := Lwr(c, rs, rt, extra);
      && r.exception == Fault(c.table, v - v % 4, 4, false)
      && (r.exception == NoException ==>
            && Mapped(c.table, v - v % 4, false) && 0 <= Place(c.table, v - v % 4) <= MEMORY_SIZE - 4
            && r.cpu.mem == c.mem && r.cpu.table == Touched(c.table, v - v % 4, false)
            && r.cpu.regs
               == Finished(c.regs, rt,
                           KeepHigh(Latest(c.regs, rt), WordAt(c.mem, Place(c.table, v - v % 4)), v % 4)))
  {
    ReadsInside(c, Target(c.regs, rs, extra));
    hide Finished, KeepHigh, WordAt, Touched, Latest, Trapped, Fault, Mapped, Place, Target;
  }

  /** Finishing from what the program cannot tell apart gives what it cannot tell apart. */
  lemma SameFinish(a: Cpu, b: Cpu, mem: seq<int>, table: seq<Entry>, nextReg: int, x: int, y: int)
    requires SameProgram(a, b) && IsMemory(mem) && 0 <= nextReg < 32 && IsWord(x) && IsWord(y)
    requires nextReg == 0 || x == y
    ensures SameProgram(Cpu(Finished(a.regs, nextReg, x), mem, table), Cpu(Finished(b.regs, nextReg, y), mem, table))
  {
    DelayedRegs(a.regs, nextReg, x);
    DelayedRegs(b.regs, nextReg, y);
    CountersMove(a.regs, nextReg, x);
    CountersMove(b.regs, nextReg, y);
    forall g | 0 < g < 32
      ensures Latest(Finished(a.regs, nextReg, x), g) == Latest(Finished(b.regs, nextReg, y), g)
    {
      LatestDelayed(a.regs, g, nextReg, x);
      LatestDelayed(b.regs, g, nextReg, y);
    }
    hide Finished, Latest;
  }

  /** The state in which the handler returns: the load has landed, and the page table is whatever the kernel made it. */
  function Resumed(c: Cpu, v: int, table: seq<Entry>): Cpu
    requires IsRegs(c.regs)
  {
    Cpu(Trapped(c.regs, v), c.mem, table)
  }

  lemma ResumedSame(c: Cpu, v: int, table: seq<Entry>)
    requires IsCpu(c) && IsWord(v)
    ensures SameProgram(c.(table := table), Resumed(c, v, table))
    ensures forall g :: 0 <= g < 32 ==> Resumed(c, v, table).regs[g] == Landed(c.regs, g)
  {
    TrapIsUnseen(c, v);
    hide Trapped, Latest;
  }

  lemma Merged(c: Cpu, rt: int, p: int, n: int)
    requires IsCpu(c) && 0 <= rt < 32 && 0 <= p <= MEMORY_SIZE - 4 && 0 <= n < 4
    ensures IsWord(KeepLow(Latest(c.regs, rt), WordAt(c.mem, p), n))
    ensures IsWord(KeepHigh(Latest(c.regs, rt), WordAt(c.mem, p), n))
  {
    WordAtBytes(c.mem, p);
    KeepLowBytes(Latest(c.regs, rt), WordAt(c.mem, p), n);
    KeepHighBytes(Latest(c.regs, rt), WordAt(c.mem, p), n);
    hide KeepLow, KeepHigh, WordAt;
  }

  /** What the instruction finds when it runs again. */
  lemma Finds(c: Cpu, v: int, table: seq<Entry>, rs: int, rt: int, extra: int)
    requires IsCpu(c) && IsWord(v) && 0 <= rs < 32 && 0 <= rt < 32 && Landed(c.regs, rs) == c.regs[rs]
    ensures IsCpu(Resumed(c, v, table)) && SameProgram(c.(table := table), Resumed(c, v, table))
    ensures Target(Resumed(c, v, table).regs, rs, extra) == Target(c.regs, rs, extra)
    ensures rt != 0 ==> Latest(Resumed(c, v, table).regs, rt) == Latest(c.regs, rt)
    ensures Resumed(c, v, table).regs[rt] == Landed(c.regs, rt)
  {
    ResumedSame(c, v, table);
    SameTarget(c.regs, v, rs, extra);
    hide Trapped, Latest, Target, Landed;
  }

  lemma LwlAgain(c: Cpu, v: int, table: seq<Entry>, rs: int, rt: int, extra: int)
    requires IsCpu(c) && IsWord(v) && 0 <= rs < 32 && 0 <= rt < 32 && Landed(c.regs, rs) == c.regs[rs]
    ensures IsCpu(Resumed(c, v, table))
    ensures var (a, b) := (Lwl(c.(table := table), rs, rt, extra), Lwl(Resumed(c, v, table), rs, rt, extra));
      b.exception == a.exception && (a.exception == NoException ==> SameProgram(a.cpu, b.cpu))
  {
    hide Lwl, SameProgram, Latest, Target, Landed, Finished, Trapped, KeepLow, WordAt, Touched, Fault;
    var (here, again) := (c.(table := table), Resumed(c, v, table));
    Finds(c, v, table, rs, rt, extra);
    LwlIs(here, rs, rt, extra);
    LwlIs(again, rs, rt, extra);
    var u := Target(c.regs, rs, extra);
    if Fault(table, u - u % 4, 4, false) == NoException {
      var p := Place(table, u - u % 4);
      Merged(here, rt, p, 3 - u % 4);
      Merged(again, rt, p, 3 - u % 4);
      SameFinish(here, again, c.mem, Touched(table, u - u % 4, false), rt,
                 KeepLow(Latest(here.regs, rt), WordAt(c.mem, p), 3 - u % 4),
                 KeepLow(Latest(again.regs, rt), WordAt(c.mem, p), 3 - u % 4));
    }
  }

  lemma LwrAgain(c: Cpu, v: int, table: seq<Entry>, rs: int, rt: int, extra: int)
    requires IsCpu(c) && IsWord(v) && 0 <= rs < 32 && 0 <= rt < 32 && Landed(c.regs, rs) == c.regs[rs]
    ensures IsCpu(Resumed(c, v, table))
    ensures var (a, b) := (Lwr(c.(table := table), rs, rt, extra), Lwr(Resumed(c, v, table), rs, rt, extra));
      b.exception == a.exception && (a.exception == NoException ==> SameProgram(a.cpu, b.cpu))
  {
    hide Lwr, SameProgram, Latest, Target, Landed, Finished, Trapped, KeepHigh, WordAt, Touched, Fault;
    var (here, again) := (c.(table := table), Resumed(c, v, table));
    Finds(c, v, table, rs, rt, extra);
    LwrIs(here, rs, rt, extra);
    LwrIs(again, rs, rt, extra);
    var u := Target(c.regs, rs, extra);
    if Fault(table, u - u % 4, 4, false) == NoException {
      var p := Place(table, u - u % 4);
      Merged(here, rt, p, u % 4);
      Merged(again, rt, p, u % 4);
      SameFinish(here, again, c.mem, Touched(table, u - u % 4, false), rt,
                 KeepHigh(Latest(here.regs, rt), WordAt(c.mem, p), u % 4),
                 KeepHigh(Latest(again.regs, rt), WordAt(c.mem, p), u % 4));
    }
  }

  /** A load that runs again after a fault does what it would have done on the repaired table at once, whenever its base
      register has no other value pending. */
  lemma LoadsAgain(c: Cpu, v: int, table: seq<Entry>, rs: int, rt: int, extra: int)
    requires IsCpu(c) && IsWord(v) && 0 <= rs < 32 && 0 <= rt < 32 && Landed(c.regs, rs) == c.regs[rs]
    ensures IsCpu(Resumed(c, v, table))
    ensures var (a, b) := (Lwl(c.(table := table), rs, rt, extra), Lwl(Resumed(c, v, table), rs, rt, extra));
      b.exception == a.exception && (a.exception == NoException ==> SameProgram(a.cpu, b.cpu))
    ensures var (a, b) := (Lwr(c.(table := table), rs, rt, extra), Lwr(Resumed(c, v, table), rs, rt, extra));
      b.exception == a.exception && (a.exception == NoException ==> SameProgram(a.cpu, b.cpu))
  {
    hide *;
    LwlAgain(c, v, table, rs, rt, extra);
    LwrAgain(c, v, table, rs, rt, extra);
  }

  // ----- the stores again -----

  /** The two accesses of a store, and the word it writes. */
  ghost predicate StoresWord(c: Cpu, v: int, value: int, r: Ran)
    requires IsCpu(c) && IsWord(v)
  {
    if Fault(c.table, v, 4, false) != NoException then r.exception == Fault(c.table, v, 4, false)
    else 0 <= v / PAGE_SIZE < |c.table| && r == WriteBack(c.(table := Touched(c.table, v, false)), v, value)
  }

  lemma ReadsInside(c: Cpu, u: int)
    requires IsWord(u)
    ensures var v := u - u % 4;
      && IsWord(v) && v % 4 == 0
      && (Fault(c.table, v, 4, false) == NoException ==>
            Mapped(c.table, v, false) && 0 <= Place(c.table, v) <= MEMORY_SIZE - 4 && 0 <= v / PAGE_SIZE < |c.table|)
  {
    Aligned(u);
    NoFault(c.table, u - u % 4, 4, false);
    WordPlaces(c.table, u - u % 4, 3, false);
    hide Place;
  }

  lemma SwlIs(c: Cpu, rs: int, rt: int, extra: int)
    requires IsCpu(c) && 0 <= rs < 32 && 0 <= rt < 32
    ensures var u := Target(c.regs, rs, extra); IsWord(u - u % 4)
    ensures var u := Target(c.regs, rs, extra); var v := u - u % 4;
      Fault(c.table, v, 4, false) == NoException ==>
        Mapped(c.table, v, false) && 0 <= Place(c.table, v) <= MEMORY_SIZE - 4
    ensures var u := Target(c.regs, rs, extra); var v := u - u % 4;
      StoresWord(c, v, if Fault(c.table, v, 4, false) == NoException
                       then KeepHigh(WordAt(c.mem, Place(c.table, v)), c.regs[rt], 3 - u % 4) else 0,
                 Swl(c, rs, rt, extra))
  {
    ReadsInside(c, Target(c.regs, rs, extra));
    hide KeepHigh, WordAt, Touched, WriteBack, Trapped, Fault, Mapped, Place, Target;
  }

  lemma SwrIs(c: Cpu, rs: int, rt: int, extra: int)
    requires IsCpu(c) && 0 <= rs < 32 && 0 <= rt < 32
    ensures var u := Target(c.regs, rs, extra); IsWord(u - u % 4)
    ensures var u := Target(c.regs, rs, extra); var v := u - u % 4;
      Fault(c.table, v, 4, false) == NoException ==>
        Mapped(c.table, v, false) && 0 <= Place(c.table, v) <= MEMORY_SIZE - 4
    ensures var u := Target(c.regs, rs, extra); var v := u - u % 4;
      StoresWord(c, v, if Fault(c.table, v, 4, false) == NoException
                       then KeepLow(WordAt(c.mem, Place(c.table, v)), c.regs[rt], u % 4) else 0,
                 Swr(c, rs, rt, extra))
  {
    ReadsInside(c, Target(c.regs, rs, extra));
    hide KeepLow, WordAt, Touched, WriteBack, Trapped, Fault, Mapped, Place, Target;
  }

  /** The same word written to the same place. */
  lemma WritesAgain(a: Cpu, b: Cpu, v: int, value: int, q: Ran, r: Ran)
    requires SameProgram(a, b) && IsWord(v) && StoresWord(a, v, value, q) && StoresWord(b, v, value, r)
    ensures r.exception == q.exception && (q.exception == NoException ==> SameProgram(q.cpu, r.cpu))
  {
    if Fault(a.table, v, 4, false) == NoException {
      var table := Touched(a.table, v, false);
      WriteBackAgain(a.(table := table), b.(table := table), v, value);
    }
    hide WriteBack, Touched, Fault, Latest;
  }

  lemma WriteBackAgain(a: Cpu, b: Cpu, v: int, value: int)
    requires SameProgram(a, b) && IsWord(v)
    ensures var (q, r) := (WriteBack(a, v, value), WriteBack(b, v, value));
      r.exception == q.exception && (q.exception == NoException ==> SameProgram(q.cpu, r.cpu))
  {
    hide Trapped, PutWord, Touched, Fault, Finished, Latest, Place, Mapped;
    if Fault(a.table, v, 4, true) == NoException {
      WritesInside(a, v);
      var mem := PutWord(a.mem, Place(a.table, v), value);
      PutWordAt(a.mem, Place(a.table, v), value);
      SameFinish(a, b, mem, Touched(a.table, v, true), 0, 0, 0);
    }
  }

  lemma WritesInside(c: Cpu, v: int)
    requires IsCpu(c) && IsWord(v) && Fault(c.table, v, 4, true) == NoException
    ensures Mapped(c.table, v, false) && 0 <= Place(c.table, v) <= MEMORY_SIZE - 4 && 0 <= v / PAGE_SIZE < |c.table|
  {
    WordPlaces(c.table, v, 3, false);
  }

  /** The same for the stores, whenever neither the base nor the stored register has another value pending. */
  lemma StoresAgain(c: Cpu, v: int, table: seq<Entry>, rs: int, rt: int, extra: int)
    requires IsCpu(c) && IsWord(v) && 0 <= rs < 32 && 0 <= rt < 32
    requires Landed(c.regs, rs) == c.regs[rs] && Landed(c.regs, rt) == c.regs[rt]
    ensures IsCpu(Resumed(c, v, table))
    ensures var (a, b) := (Swl(c.(table := table), rs, rt, extra), Swl(Resumed(c, v, table), rs, rt, extra));
      b.exception == a.exception && (a.exception == NoException ==> SameProgram(a.cpu, b.cpu))
    ensures var (a, b) := (Swr(c.(table := table), rs, rt, extra), Swr(Resumed(c, v, table), rs, rt, extra));
      b.exception == a.exception && (a.exception == NoException ==> SameProgram(a.cpu, b.cpu))
  {
    hide Swl, Swr, SameProgram, Latest, Target, Landed, Trapped, KeepLow, KeepHigh, WordAt, Fault, Mapped, StoresWord;
    var (here, again) := (c.(table := table), Resumed(c, v, table));
    Finds(c, v, table, rs, rt, extra);
    var u := Target(c.regs, rs, extra);
    SwlIs(here, rs, rt, extra);
    SwlIs(again, rs, rt, extra);
    var x := if Fault(table, u - u % 4, 4, false) == NoException
             then KeepHigh(WordAt(c.mem, Place(table, u - u % 4)), c.regs[rt], 3 - u % 4) else 0;
    WritesAgain(here, again, u - u % 4, x, Swl(here, rs, rt, extra), Swl(again, rs, rt, extra));
    SwrIs(here, rs, rt, extra);
    SwrIs(again, rs, rt, extra);
    var y := if Fault(table, u - u % 4, 4, false) == NoException
             then KeepLow(WordAt(c.mem, Place(table, u - u % 4)), c.regs[rt], u % 4) else 0;
    WritesAgain(here, again, u - u % 4, y, Swr(here, rs, rt, extra), Swr(again, rs, rt, extra));
  }
}
