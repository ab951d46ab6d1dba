/** What the use and dirty bits of the page table tell the kernel (machine/translate.cc). */
module PageBits {
  import opened MipsMemory
  import opened Unaligned

  type Reg = r: int | 0 <= r < 32 witness 0

  /** One of the four instructions, or an interrupt between two of them. */
  datatype Instr =
    | LoadLeft(rs: Reg, rt: Reg, extra: int)
    | LoadRight(rs: Reg, rt: Reg, extra: int)
    | StoreLeft(rs: Reg, rt: Reg, extra: int)
    | StoreRight(rs: Reg, rt: Reg, extra: int)
    | Interrupted

  function Execute(c: Cpu, i: Instr): Ran
    requires IsCpu(c)
  {
    match i
    case LoadLeft(rs, rt, extra) => Lwl(c, rs, rt, extra)
    case LoadRight(rs, rt, extra) => Lwr(c, rs, rt, extra)
    case StoreLeft(rs, rt, extra) => Swl(c, rs, rt, extra)
    case StoreRight(rs, rt, extra) => Swr(c, rs, rt, extra)
    case Interrupted => Ran(NoException, Flushed(c, true))
  }

  /** The aligned word an instruction is about. */
  function Word(c: Cpu, i: Instr): int
    requires IsCpu(c)
  {
    if i.Interrupted? then 0 else Floor4(Target(c.regs, i.rs, i.extra))
  }

  function Page(c: Cpu, i: Instr): int
    requires IsCpu(c)
  {
    Word(c, i) / PAGE_SIZE
  }

  /** The pages an instruction reads from: its own, unless it raises an exception there. */
  function ReadsFrom(c: Cpu, i: Instr): set<int>
    requires IsCpu(c)
  {
    if !i.Interrupted? && Mapped(c.table, Word(c, i), false) then {Page(c, i)} else {}
  }

  /** The pages an instruction writes to. */
  function WritesTo(c: Cpu, i: Instr): set<int>
    requires IsCpu(c)
  {
    if (i.StoreLeft? || i.StoreRight?) && Mapped(c.table, Word(c, i), true) then {Page(c, i)} else {}
  }

  /** d is c with some pages marked, and only the frames of the dirtied ones changed. */
  ghost predicate Marked(c: Cpu, d: Cpu, used: set<int>, dirtied: set<int>) {
    && |d.table| == |c.table| && |d.mem| == |c.mem| == MEMORY_SIZE
    && (forall q :: 0 <= q < |c.table| ==>
          d.table[q] == c.table[q].(use := c.table[q].use || q in used, dirty := c.table[q].dirty || q in dirtied))
    && (forall a :: 0 <= a < MEMORY_SIZE && d.mem[a] != c.mem[a] ==> InFrame(c, a, dirtied))
  }

  /** Physical byte a lies in the frame of one of the pages. */
  ghost predicate InFrame(c: Cpu, a: int, pages: set<int>) {
    exists q :: q in pages && 0 <= q < |c.table| && c.table[q].physicalPage == a / PAGE_SIZE
  }

  // ----- one instruction -----

  lemma TouchedMarks(c: Cpu, d: Cpu, v: int)
    requires IsCpu(c) && Mapped(c.table, v, false) && d.mem == c.mem && d.table == Touched(c.table, v, false)
    ensures Marked(c, d, {v / PAGE_SIZE}, {})
  {
  }

  lemma SameMarks(c: Cpu, d: Cpu)
    requires IsCpu(c) && d.mem == c.mem && d.table == c.table
    ensures Marked(c, d, {}, {})
  {
  }

  lemma FrameOf(table: seq<Entry>, v: int, a: int)
    requires IsWord(v) && v % 4 == 0 && Mapped(table, v, false) && Place(table, v) <= a < Place(table, v) + 4
    ensures a / PAGE_SIZE == table[v / PAGE_SIZE].physicalPage
  {
    WordPlaces(table, v, a - Place(table, v), false);
  }

  lemma WrittenMarks(c: Cpu, d: Cpu, v: int, x: int)
    requires IsCpu(c) && IsWord(v) && v % 4 == 0 && Mapped(c.table, v, true) && Mapped(c.table, v, false)
    requires Place(c.table, v) + 4 <= MEMORY_SIZE
    requires d.mem == PutWord(c.mem, Place(c.table, v), x)
    requires d.table == Touched(Touched(c.table, v, false), v, true)
    ensures Marked(c, d, {v / PAGE_SIZE}, {v / PAGE_SIZE})
  {
    PutWordAt(c.mem, Place(c.table, v), x);
    hide PutWord, Place, ByteOf;
    forall a | 0 <= a < MEMORY_SIZE && d.mem[a] != c.mem[a] ensures InFrame(c, a, {v / PAGE_SIZE}) {
      FrameOf(c.table, v, a);
      assert v / PAGE_SIZE in {v / PAGE_SIZE};
    }
  }

  lemma WordOf(c: Cpu, i: Instr)
    requires IsCpu(c)
    ensures IsWord(Word(c, i)) && Word(c, i) % 4 == 0
  {
  }

  /** What a load leaves. */
  lemma LoadIs(c: Cpu, i: Instr)
    requires IsCpu(c) && (i.LoadLeft? || i.LoadRight?)
    ensures var (d, v) := (Execute(c, i).cpu, Word(c, i));
      && d.mem == c.mem
      && if Mapped(c.table, v, false) then d.table == Touched(c.table, v, false) else d.table == c.table
  {
    WordOf(c, i);
    NoFault(c.table, Word(c, i), 4, false);
    hide Fault, Mapped, Touched, Target, KeepLow, KeepHigh, Latest, Finished, Trapped, WordAt, Place;
  }

  lemma WriteBackIs(c: Cpu, v: int, value: int)
    requires IsCpu(c) && IsWord(v) && v % 4 == 0 && Mapped(c.table, v, false)
    ensures Place(c.table, v) + 4 <= MEMORY_SIZE
    ensures var d := WriteBack(c, v, value).cpu;
      if Mapped(c.table, v, true) then
        d.mem == PutWord(c.mem, Place(c.table, v), value) && d.table == Touched(c.table, v, true)
      else d.mem == c.mem && d.table == c.table
  {
    NoFault(c.table, v, 4, true);
    WordPlaces(c.table, v, 3, false);
    hide Fault, Mapped, Touched, Finished, Trapped, PutWord, Place;
  }

  /** A store that can read its word writes it back changed. */
  lemma StoreWrites(c: Cpu, i: Instr) returns (value: int)
    requires IsCpu(c) && (i.StoreLeft? || i.StoreRight?) && Mapped(c.table, Word(c, i), false)
    ensures Execute(c, i) == WriteBack(c.(table := Touched(c.table, Word(c, i), false)), Word(c, i), value)
  {
    hide Mapped, Touched, Target, WriteBack, Swl, Swr, IsRegs, IsMemory;
    if i.StoreLeft? {
      value := SwlWrites(c, i.rs, i.rt, i.extra);
    } else {
      value := SwrWrites(c, i.rs, i.rt, i.extra);
    }
  }

  lemma CanRead(table: seq<Entry>, tmp: int)
    requires IsWord(tmp) && Mapped(table, Floor4(tmp), false)
    ensures Fault(table, tmp - tmp % 4, 4, false) == NoException && Place(table, tmp - tmp % 4) + 4 <= MEMORY_SIZE
  {
    NoFault(table, Floor4(tmp), 4, false);
    WordPlaces(table, Floor4(tmp), 3, false);
  }

  lemma SwlWrites(c: Cpu, rs: Reg, rt: Reg, extra: int) returns (value: int)
    requires IsCpu(c) && Mapped(c.table, Floor4(Target(c.regs, rs, extra)), false)
    ensures var v := Floor4(Target(c.regs, rs, extra));
      Swl(c, rs, rt, extra) == WriteBack(c.(table := Touched(c.table, v, false)), v, value)
  {
    var tmp := Target(c.regs, rs, extra);
    CanRead(c.table, tmp);
    hide Fault, Mapped, Touched, Target, KeepHigh, WriteBack, WordAt, Place, IsMemory;
    value := KeepHigh(WordAt(c.mem, Place(c.table, tmp - tmp % 4)), c.regs[rt], 3 - tmp % 4);
  }

  lemma SwrWrites(c: Cpu, rs: Reg, rt: Reg, extra: int) returns (value: int)
    requires IsCpu(c) && Mapped(c.table, Floor4(Target(c.regs, rs, extra)), false)
    ensures var v := Floor4(Target(c.regs, rs, extra));
      Swr(c, rs, rt, extra) == WriteBack(c.(table := Touched(c.table, v, false)), v, value)
  {
    var tmp := Target(c.regs, rs, extra);
    CanRead(c.table, tmp);
    hide Fault, Mapped, Touched, Target, KeepLow, WriteBack, WordAt, Place, IsMemory;
    value := KeepLow(WordAt(c.mem, Place(c.table, tmp - tmp % 4)), c.regs[rt], tmp % 4);
  }

  lemma StoreTraps(c: Cpu, i: Instr)
    requires IsCpu(c) && (i.StoreLeft? || i.StoreRight?) && !Mapped(c.table, Word(c, i), false)
    ensures Execute(c, i).cpu == c.(regs := Trapped(c.regs, Word(c, i)))
  {
    NoFault(c.table, Word(c, i), 4, false);
    hide Fault, Mapped, Touched, Target, KeepLow, KeepHigh, WriteBack, WordAt, Place, Trapped;
  }

  /** What a store leaves: a page that may only be read counts as read. */
  lemma StoreIs(c: Cpu, i: Instr)
    requires IsCpu(c) && (i.StoreLeft? || i.StoreRight?)
    ensures var (d, v) := (Execute(c, i).cpu, Word(c, i));
      if !Mapped(c.table, v, false) then d.mem == c.mem && d.table == c.table
      else if !Mapped(c.table, v, true) then d.mem == c.mem && d.table == Touched(c.table, v, false)
      else
        && Place(c.table, v) + 4 <= MEMORY_SIZE && d.table == Touched(Touched(c.table, v, false), v, true)
        && exists x :: d.mem == PutWord(c.mem, Place(c.table, v), x)
  {
    var v := Word(c, i);
    WordOf(c, i);
    hide Execute, Mapped, Touched, PutWord, Place, Word, WriteBack, Trapped;
    if Mapped(c.table, v, false) {
      var value := StoreWrites(c, i);
      WriteBackIs(c.(table := Touched(c.table, v, false)), v, value);
    } else {
      StoreTraps(c, i);
    }
  }

  lemma InstrMarks(c: Cpu, i: Instr)
    requires IsCpu(c)
    ensures Marked(c, Execute(c, i).cpu, ReadsFrom(c, i), WritesTo(c, i))
  {
    var (d, v) := (Execute(c, i).cpu, Word(c, i));
    WordOf(c, i);
    hide Execute, Marked, Mapped, Touched, PutWord, Place, Word;
    if i.Interrupted? {
      FlushIs(c);
      SameMarks(c, d);
    } else if i.LoadLeft? || i.LoadRight? {
      LoadIs(c, i);
      if Mapped(c.table, v, false) {
        TouchedMarks(c, d, v);
      } else {
        SameMarks(c, d);
      }
    } else {
      StoreIs(c, i);
      StoreMarks(c, i);
    }
  }

  lemma FlushIs(c: Cpu)
    requires IsCpu(c)
    ensures var d := Execute(c, Interrupted).cpu; d.mem == c.mem && d.table == c.table
  {
  }

  lemma StoreMarks(c: Cpu, i: Instr)
    requires IsCpu(c) && (i.StoreLeft? || i.StoreRight?)
    ensures Marked(c, Execute(c, i).cpu, ReadsFrom(c, i), WritesTo(c, i))
  {
    var (d, v) := (Execute(c, i).cpu, Word(c, i));
    StoreIs(c, i);
    WordOf(c, i);
    hide Execute, Marked, Mapped, Touched, PutWord, Place, Word;
    if !Mapped(c.table, v, false) {
      if Mapped(c.table, v, true) {
        WriteIsRead(c.table, v);
      }
      SameMarks(c, d);
    } else if !Mapped(c.table, v, true) {
      TouchedMarks(c, d, v);
    } else {
      var x :| d.mem == PutWord(c.mem, Place(c.table, v), x);
      WrittenMarks(c, d, v, x);
    }
  }

  // ----- the machine stays one -----

  lemma LoadRegs(c: Cpu, i: Instr) returns (x: int)
    requires IsCpu(c) && (i.LoadLeft? || i.LoadRight?) && Mapped(c.table, Word(c, i), false)
    ensures IsWord(x) && Execute(c, i).cpu.regs == Finished(c.regs, i.rt, x)
  {
    hide Mapped, Target, Lwl, Lwr, Finished, IsRegs, IsMemory;
    if i.LoadLeft? {
      x := LwlRegs(c, i.rs, i.rt, i.extra);
    } else {
      x := LwrRegs(c, i.rs, i.rt, i.extra);
    }
  }

  lemma WordHere(c: Cpu, v: int, rt: Reg)
    requires IsCpu(c) && IsWord(v) && v % 4 == 0 && Mapped(c.table, v, false)
    ensures Place(c.table, v) + 4 <= MEMORY_SIZE && IsWord(WordAt(c.mem, Place(c.table, v)))
    ensures IsWord(Latest(c.regs, rt))
  {
    WordPlaces(c.table, v, 3, false);
    WordAtBytes(c.mem, Place(c.table, v));
  }

  lemma LwlRegs(c: Cpu, rs: Reg, rt: Reg, extra: int) returns (x: int)
    requires IsCpu(c) && Mapped(c.table, Floor4(Target(c.regs, rs, extra)), false)
    ensures IsWord(x) && Lwl(c, rs, rt, extra).cpu.regs == Finished(c.regs, rt, x)
  {
    var tmp := Target(c.regs, rs, extra);
    NoFault(c.table, tmp - tmp % 4, 4, false);
    WordHere(c, tmp - tmp % 4, rt);
    hide Fault, Mapped, Touched, Target, KeepLow, Latest, Finished, WordAt, Place, ByteOf, IsMemory;
    x := KeepLow(Latest(c.regs, rt), WordAt(c.mem, Place(c.table, tmp - tmp % 4)), 3 - tmp % 4);
    KeepLowBytes(Latest(c.regs, rt), WordAt(c.mem, Place(c.table, tmp - tmp % 4)), 3 - tmp % 4);
  }

  lemma LwrRegs(c: Cpu, rs: Reg, rt: Reg, extra: int) returns (x: int)
    requires IsCpu(c) && Mapped(c.table, Floor4(Target(c.regs, rs, extra)), false)
    ensures IsWord(x) && Lwr(c, rs, rt, extra).cpu.regs == Finished(c.regs, rt, x)
  {
    var tmp := Target(c.regs, rs, extra);
    NoFault(c.table, tmp - tmp % 4, 4, false);
    WordHere(c, tmp - tmp % 4, rt);
    hide Fault, Mapped, Touched, Target, KeepHigh, Latest, Finished, WordAt, Place, ByteOf, IsMemory;
    x := KeepHigh(Latest(c.regs, rt), WordAt(c.mem, Place(c.table, tmp - tmp % 4)), tmp % 4);
    KeepHighBytes(Latest(c.regs, rt), WordAt(c.mem, Place(c.table, tmp - tmp % 4)), tmp % 4);
  }

  lemma LoadTraps(c: Cpu, i: Instr)
    requires IsCpu(c) && (i.LoadLeft? || i.LoadRight?) && !Mapped(c.table, Word(c, i), false)
    ensures Execute(c, i).cpu == c.(regs := Trapped(c.regs, Word(c, i)))
  {
    NoFault(c.table, Word(c, i), 4, false);
    hide Fault, Mapped, Touched, Target, KeepLow, KeepHigh, WordAt, Place, Trapped, Latest, Finished;
  }

  lemma LoadCpu(c: Cpu, i: Instr)
    requires IsCpu(c) && (i.LoadLeft? || i.LoadRight?)
    ensures IsCpu(Execute(c, i).cpu)
  {
    LoadIs(c, i);
    WordOf(c, i);
    TrappedWord(c.regs, Word(c, i));
    hide Execute, Mapped, Touched, Word, Finished, Trapped, IsRegs;
    if Mapped(c.table, Word(c, i), false) {
      var x := LoadRegs(c, i);
      DelayedRegs(c.regs, i.rt, x);
    } else {
      LoadTraps(c, i);
    }
  }

  lemma TrappedWord(regs: seq<int>, v: int)
    requires IsRegs(regs) && IsWord(v)
    ensures IsRegs(Trapped(regs, v)) && IsRegs(Finished(regs, 0, 0)) && IsRegs(Delayed(regs, 0, 0))
  {
    DelayedRegs(regs[BAD_VADDR_REG := v], 0, 0);
    DelayedRegs(regs, 0, 0);
  }

  lemma StoreCpu(c: Cpu, i: Instr)
    requires IsCpu(c) && (i.StoreLeft? || i.StoreRight?)
    ensures IsCpu(Execute(c, i).cpu)
  {
    var v := Word(c, i);
    WordOf(c, i);
    StoreIs(c, i);
    TrappedWord(c.regs, v);
    StoreRegs(c, i);
    hide Execute, Touched, PutWord, Place, Word, Mapped, ByteOf;
    if Mapped(c.table, v, false) && Mapped(c.table, v, true) {
      var x :| Execute(c, i).cpu.mem == PutWord(c.mem, Place(c.table, v), x);
      PutWordAt(c.mem, Place(c.table, v), x);
    }
  }

  lemma StoreRegs(c: Cpu, i: Instr)
    requires IsCpu(c) && (i.StoreLeft? || i.StoreRight?)
    ensures var regs := Execute(c, i).cpu.regs; regs == Trapped(c.regs, Word(c, i)) || regs == Finished(c.regs, 0, 0)
  {
    hide Fault, Touched, Target, KeepLow, KeepHigh, Finished, Trapped, WordAt, PutWord, Place;
  }

  lemma InstrCpu(c: Cpu, i: Instr)
    requires IsCpu(c)
    ensures IsCpu(Execute(c, i).cpu)
  {
    if i.Interrupted? {
      TrappedWord(c.regs, 0);
    } else if i.LoadLeft? || i.LoadRight? {
      LoadCpu(c, i);
    } else {
      StoreCpu(c, i);
    }
  }

  // ----- whole programs -----

  /** The state after a program; an instruction that raises an exception leaves what it leaves to the kernel. */
  ghost function Run(c: Cpu, program: seq<Instr>): (d: Cpu)
    requires IsCpu(c)
    ensures IsCpu(d)
  {
    if program == [] then c
    else
      var before := Run(c, program[..|program| - 1]);
      InstrCpu(before, program[|program| - 1]);
      Execute(before, program[|program| - 1]).cpu
  }

  ghost function PagesRead(c: Cpu, program: seq<Instr>): set<int>
    requires IsCpu(c)
  {
    if program == [] then {}
    else
      var front := program[..|program| - 1];
      PagesRead(c, front) + ReadsFrom(Run(c, front), program[|program| - 1])
  }

  ghost function PagesWritten(c: Cpu, program: seq<Instr>): set<int>
    requires IsCpu(c)
  {
    if program == [] then {}
    else
      var front := program[..|program| - 1];
      PagesWritten(c, front) + WritesTo(Run(c, front), program[|program| - 1])
  }

  lemma MarkedOn(c: Cpu, d: Cpu, e: Cpu, used: set<int>, dirtied: set<int>, more: set<int>, dirty: set<int>)
    requires Marked(c, d, used, dirtied) && Marked(d, e, more, dirty)
    ensures Marked(c, e, used + more, dirtied + dirty)
  {
    forall a | 0 <= a < MEMORY_SIZE && e.mem[a] != c.mem[a] ensures InFrame(c, a, dirtied + dirty) {
      if d.mem[a] != c.mem[a] {
        var q :| q in dirtied && 0 <= q < |c.table| && c.table[q].physicalPage == a / PAGE_SIZE;
        assert q in dirtied + dirty;
      } else {
        var q :| q in dirty && 0 <= q < |d.table| && d.table[q].physicalPage == a / PAGE_SIZE;
        assert q in dirtied + dirty && c.table[q].physicalPage == d.table[q].physicalPage;
      }
    }
  }

  /** After any program, interrupted or not, the use bits are those set before or of pages read from, the dirty bits
      those set before or of pages written to, and nothing else in the table has changed. */
  lemma {:induction false} BitsTell(c: Cpu, program: seq<Instr>)
    requires IsCpu(c)
    ensures Marked(c, Run(c, program), PagesRead(c, program), PagesWritten(c, program))
  {
    if program == [] {
    } else {
      hide Marked, Execute, ReadsFrom, WritesTo;
      var (front, i) := (program[..|program| - 1], program[|program| - 1]);
      BitsTell(c, front);
      var before := Run(c, front);
      InstrMarks(before, i);
      MarkedOn(c, before, Run(c, program), PagesRead(c, front), PagesWritten(c, front), ReadsFrom(before, i),
               WritesTo(before, i));
    }
  }

  /** So a frame none of whose pages is dirty holds what it held at the start: it need not be written out. */
  lemma CleanFrame(c: Cpu, program: seq<Instr>, frame: int, a: int)
    requires IsCpu(c) && 0 <= a < MEMORY_SIZE && a / PAGE_SIZE == frame
    requires forall q :: 0 <= q < |c.table| && c.table[q].physicalPage == frame ==>
               q < |Run(c, program).table| && !Run(c, program).table[q].dirty
    ensures Run(c, program).mem[a] == c.mem[a]
  {
    BitsTell(c, program);
    hide Run, PagesRead, PagesWritten;
  }
}
