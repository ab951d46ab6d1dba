/** The simulated machine as an object: registers, memory and page table changed in place. */
module Machines {
  import opened MipsMemory
  import opened Unaligned

  lemma Legal(table: seq<Entry>, v: int, writing: bool)
    requires Mapped(table, v, writing)
    ensures Mapped(table, v, false)
    ensures var e := table[v / PAGE_SIZE];
      && Place(table, v) == e.physicalPage * PAGE_SIZE + v % PAGE_SIZE
      && Touched(table, v, writing) == table[v / PAGE_SIZE := e.(use := true, dirty := e.dirty || writing)]
  {
  }

  class Machine {
    const registers: array<int>
    const mainMemory: array<int>
    const pageTable: array<Entry>

    ghost predicate Valid()
      reads this, registers, mainMemory, pageTable
    {
      registers != mainMemory && IsCpu(Snapshot())
    }

    ghost function Snapshot(): Cpu
      reads this, registers, mainMemory, pageTable
    {
      Cpu(registers[..], mainMemory[..], pageTable[..])
    }

    constructor (pages: seq<Entry>)
      ensures Valid() && fresh(registers) && fresh(mainMemory) && fresh(pageTable)
      ensures Snapshot() == Cpu(seq(NUM_TOTAL_REGS, i => 0), seq(MEMORY_SIZE, i => 0), pages)
    {
      registers := new int[NUM_TOTAL_REGS](i => 0);
      mainMemory := new int[MEMORY_SIZE](i => 0);
      pageTable := new Entry[|pages|](i requires 0 <= i < |pages| => pages[i]);
    }

    /** Translate through the linear page table: no exception exactly for a legal access, whose use and
        dirty bits are then set; the closing assertion on the physical address cannot fail. */
    method Translate(virtAddr: int, size: int, writing: bool) returns (exception: Exception, physAddr: int)
      requires IsWord(virtAddr) && size in {1, 2, 4}
      modifies pageTable
      ensures exception == Fault(old(pageTable[..]), virtAddr, size, writing)
      ensures exception == NoException ==> Mapped(old(pageTable[..]), virtAddr, false)
      ensures exception == NoException ==> pageTable[..] == Touched(old(pageTable[..]), virtAddr, writing)
      ensures exception == NoException ==> physAddr == Place(old(pageTable[..]), virtAddr)
      ensures exception == NoException ==> 0 <= physAddr && physAddr + size <= MEMORY_SIZE
      ensures exception != NoException ==> pageTable[..] == old(pageTable[..])
    {
      hide Touched, Place, Mapped;
      physAddr := 0;
      if (size == 4 && virtAddr % 4 != 0) || (size == 2 && virtAddr % 2 != 0) {
        return AddressErrorException, physAddr;
      }
      var vpn, offset := virtAddr / PAGE_SIZE, virtAddr % PAGE_SIZE;
      if vpn >= pageTable.Length {
        return AddressErrorException, physAddr;
      } else if !pageTable[vpn].valid {
        return PageFaultException, physAddr;
      }
      var entry := pageTable[vpn];
      if entry.readOnly && writing {
        return ReadOnlyException, physAddr;
      }
      var pageFrame := entry.physicalPage;
      if !(0 <= pageFrame < NUM_PHYS_PAGES) {
        return BusErrorException, physAddr;
      }
      NoFault(pageTable[..], virtAddr, size, writing);
      Legal(pageTable[..], virtAddr, writing);
      OffsetFits(virtAddr, size, pageFrame);
      pageTable[vpn] := pageTable[vpn].(use := true);
      if writing {
        pageTable[vpn] := pageTable[vpn].(dirty := true);
      }
      physAddr := pageFrame * PAGE_SIZE + offset;
      exception := NoException;
    }

    method DelayedLoad(nextReg: int, nextValue: int)
      requires Valid() && 0 <= nextReg < 32 && IsWord(nextValue)
      modifies registers
      ensures Valid() && registers[..] == Delayed(old(registers[..]), nextReg, nextValue)
    {
      DelayedRegs(registers[..], nextReg, nextValue);
      registers[registers[LOAD_REG]] := registers[LOAD_VALUE_REG];
      registers[LOAD_REG] := nextReg;
      registers[LOAD_VALUE_REG] := nextValue;
      registers[0] := 0;
    }

    /** RaiseException, up to the call of the kernel's handler. */
    method RaiseException(badVAddr: int)
      requires Valid() && IsWord(badVAddr)
      modifies registers
      ensures Valid() && registers[..] == Trapped(old(registers[..]), badVAddr)
    {
      registers[BAD_VADDR_REG] := badVAddr;
      DelayedLoad(0, 0);
    }

    /** ReadMem of a word. */
    method ReadWord(addr: int) returns (ok: bool, value: int)
      requires Valid() && IsWord(addr)
      modifies registers, pageTable
      ensures Valid() && IsWord(value)
      ensures ok <==> Fault(old(pageTable[..]), addr, 4, false) == NoException
      ensures ok ==> Mapped(old(pageTable[..]), addr, false) && 0 <= Place(old(pageTable[..]), addr) <= MEMORY_SIZE - 4
      ensures ok ==> value == WordAt(mainMemory[..], Place(old(pageTable[..]), addr))
      ensures ok ==> registers[..] == old(registers[..]) && pageTable[..] == Touched(old(pageTable[..]), addr, false)
      ensures !ok ==> registers[..] == Trapped(old(registers[..]), addr) && pageTable[..] == old(pageTable[..])
    {
      hide Place, Mapped, Fault, Touched, Trapped, WordAt;
      var exception, physAddr := Translate(addr, 4, false);
      if exception != NoException {
        RaiseException(addr);
        return false, 0;
      }
      WordAtBytes(mainMemory[..], physAddr);
      value := GetWord(physAddr);
      return true, value;
    }

    method GetWord(p: int) returns (value: int)
      requires mainMemory.Length == MEMORY_SIZE && 0 <= p <= MEMORY_SIZE - 4
      ensures value == WordAt(mainMemory[..], p)
    {
      value := Word4(mainMemory[p], mainMemory[p + 1], mainMemory[p + 2], mainMemory[p + 3]);
    }

    /** WriteMem of a word, and the common end of the store instructions. */
    method WriteWord(addr: int, value: int) returns (ok: bool)
      requires Valid() && IsWord(addr) && IsWord(value)
      modifies registers, mainMemory, pageTable
      ensures Valid() && Snapshot() == WriteBack(old(Snapshot()), addr, value).cpu
      ensures ok <==> WriteBack(old(Snapshot()), addr, value).exception == NoException
    {
      hide Place, Mapped, Fault, Touched, Trapped, PutWord, Finished, Delayed;
      var exception, physAddr := Translate(addr, 4, true);
      if exception != NoException {
        RaiseException(addr);
        return false;
      }
      PutWordAt(mainMemory[..], physAddr, value);
      SetWord(physAddr, value);
      Finish(0, 0);
      return true;
    }

    method SetWord(p: int, value: int)
      requires mainMemory.Length == MEMORY_SIZE && 0 <= p <= MEMORY_SIZE - 4
      modifies mainMemory
      ensures mainMemory[..] == PutWord(old(mainMemory[..]), p, value)
    {
      hide ByteOf;
      mainMemory[p] := ByteOf(value, 0);
      mainMemory[p + 1] := ByteOf(value, 1);
      mainMemory[p + 2] := ByteOf(value, 2);
      mainMemory[p + 3] := ByteOf(value, 3);
    }

    /** The common end of a successful instruction. */
    method Finish(nextLoadReg: int, nextLoadValue: int)
      requires Valid() && 0 <= nextLoadReg < 32 && IsWord(nextLoadValue)
      modifies registers
      ensures Valid() && registers[..] == Finished(old(registers[..]), nextLoadReg, nextLoadValue)
    {
      var pcAfter := (registers[NEXT_PC_REG] + 4) % W;
      DelayedLoad(nextLoadReg, nextLoadValue);
      registers[PREV_PC_REG] := registers[PC_REG];
      registers[PC_REG] := registers[NEXT_PC_REG];
      registers[NEXT_PC_REG] := pcAfter;
    }

    /** OP_LWL. */
    method LoadWordLeft(rs: int, rt: int, extra: int)
      requires Valid() && 0 <= rs < 32 && 0 <= rt < 32
      modifies registers, pageTable
      ensures Valid() && Snapshot() == Lwl(old(Snapshot()), rs, rt, extra).cpu
    {
      hide Place, Mapped, Fault, Touched, Trapped, Finished, Delayed, KeepLow, WordAt;
      var tmp := (registers[rs] + extra) % W;
      var byteNo := tmp % 4;
      Aligned(tmp);
      var ok, value := ReadWord(tmp - byteNo);
      if !ok {
        return;
      }
      var nextLoadValue := registers[rt];
      if registers[LOAD_REG] == rt {
        nextLoadValue := registers[LOAD_VALUE_REG];
      }
      KeepLowBytes(nextLoadValue, value, 3 - byteNo);
      nextLoadValue := KeepLow(nextLoadValue, value, 3 - byteNo);
      Finish(rt, nextLoadValue);
    }

    /** OP_LWR. */
    method LoadWordRight(rs: int, rt: int, extra: int)
      requires Valid() && 0 <= rs < 32 && 0 <= rt < 32
      modifies registers, pageTable
      ensures Valid() && Snapshot() == Lwr(old(Snapshot()), rs, rt, extra).cpu
    {
      hide Place, Mapped, Fault, Touched, Trapped, Finished, Delayed, KeepHigh, WordAt;
      var tmp := (registers[rs] + extra) % W;
      var byteNo := tmp % 4;
      Aligned(tmp);
      var ok, value := ReadWord(tmp - byteNo);
      if !ok {
        return;
      }
      var nextLoadValue := registers[rt];
      if registers[LOAD_REG] == rt {
        nextLoadValue := registers[LOAD_VALUE_REG];
      }
      KeepHighBytes(nextLoadValue, value, byteNo);
      nextLoadValue := KeepHigh(nextLoadValue, value, byteNo);
      Finish(rt, nextLoadValue);
    }

    /** OP_SWL. */
    method StoreWordLeft(rs: int, rt: int, extra: int)
      requires Valid() && 0 <= rs < 32 && 0 <= rt < 32
      modifies registers, mainMemory, pageTable
      ensures Valid() && Snapshot() == Swl(old(Snapshot()), rs, rt, extra).cpu
    {
      hide Place, Mapped, Fault, Touched, Trapped, Finished, Delayed, KeepHigh, WordAt, WriteBack;
      var tmp := (registers[rs] + extra) % W;
      var byteNo := tmp % 4;
      Aligned(tmp);
      var ok, value := ReadWord(tmp - byteNo);
      if !ok {
        return;
      }
      KeepHighBytes(value, registers[rt], 3 - byteNo);
      value := KeepHigh(value, registers[rt], 3 - byteNo);
      ok := WriteWord(tmp - byteNo, value);
    }

    /** OP_SWR. */
    method StoreWordRight(rs: int, rt: int, extra: int)
      requires Valid() && 0 <= rs < 32 && 0 <= rt < 32
      modifies registers, mainMemory, pageTable
      ensures Valid() && Snapshot() == Swr(old(Snapshot()), rs, rt, extra).cpu
    {
      hide Place, Mapped, Fault, Touched, Trapped, Finished, Delayed, KeepLow, WordAt, WriteBack;
      var tmp := (registers[rs] + extra) % W;
      var byteNo := tmp % 4;
      Aligned(tmp);
      var ok, value := ReadWord(tmp - byteNo);
      if !ok {
        return;
      }
      KeepLowBytes(value, registers[rt], byteNo);
      value := KeepLow(value, registers[rt], byteNo);
      ok := WriteWord(tmp - byteNo, value);
    }
  }
}
