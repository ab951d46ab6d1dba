/** The same kernel as an object whose routines update it in place, with the linked list of threads/scheduler.cc for its
    ready list.  Each routine is proved to do exactly what the transition system says. */
module Threads {
  import opened Base
  import opened Kernel
  import opened KernelProofs
  import Lists

  class Nucleus {
    const readyList: Lists.List<Tid>
    var currentThread: Tid
    var toBeDestroyed: Option<Tid>
    var status: map<Tid, Status>
    var place: map<Tid, Place>
    var sems: map<Sid, Sem>
    var cpu: Cpu
    var deleted: seq<(Tid, Tid)>

    ghost predicate Valid()
      reads this, readyList, readyList.spine
    {
      readyList.Valid()
    }

    ghost function ReadyThreads(): seq<Tid>
      reads this, readyList, readyList.spine
    {
      readyList.Contents()
    }

    ghost function Snapshot(): State
      reads this, readyList, readyList.spine
    {
      State(ReadyThreads(), currentThread, toBeDestroyed, status, place, sems, cpu, deleted)
    }

    constructor (main: Tid)
      ensures Valid() && fresh(readyList) && fresh(readyList.spine) && Snapshot() == Boot(main)
    {
      readyList := new Lists.List();
      currentThread, toBeDestroyed := main, None;
      status, place, sems := map[main := Running], map[main := Code], map[];
      cpu, deleted := On, [];
    }

    /** Scheduler::ReadyToRun. */
    method ReadyToRun(t: Tid)
      requires Valid() && t !in ReadyThreads()
      modifies this, readyList.Repr()
      ensures Valid() && fresh(readyList.Repr() - old(readyList.Repr()))
          && Kernel.ReadyToRun(old(Snapshot()), t) == Next(Snapshot())
      ensures sems == old(sems)
    {
      status := status[t := Status.Ready];
      readyList.Append(t);
    }

    /** Scheduler::FindNextToRun. */
    method FindNextToRun() returns (next: Option<Tid>)
      requires Valid()
      modifies readyList
      ensures Valid() && readyList.Repr() <= old(readyList.Repr())
      ensures old(ReadyThreads()) == [] ==> next.None? && ReadyThreads() == []
      ensures old(ReadyThreads()) != [] ==>
                next == Some(old(ReadyThreads())[0]) && ReadyThreads() == old(ReadyThreads())[1..]
    {
      if readyList.numInList == 0 {
        next := None;
      } else {
        var front := readyList.RemoveFront();
        next := Some(front);
      }
    }

    /** Scheduler::Run, up to the switch. */
    method Run(nextThread: Tid, finishing: bool)
      requires Valid() && (finishing ==> toBeDestroyed.None?)
      modifies this
      ensures Valid() && Kernel.Run(old(Snapshot()), nextThread, finishing) == Next(Snapshot())
    {
      if finishing {
        toBeDestroyed := Some(currentThread);
      }
      currentThread := nextThread;
      status := status[nextThread := Running];
      cpu := Resumed;
    }

    /** Scheduler::CheckToBeDestroyed, run by the thread just switched to. */
    method CheckToBeDestroyed()
      requires Valid() && currentThread in place && toBeDestroyed != Some(currentThread)
      modifies this
      ensures Valid() && DoCleanup(old(Snapshot())) == Next(Snapshot())
      ensures toBeDestroyed.None?
    {
      cpu := if place[currentThread].InP? then Retest else On;
      if toBeDestroyed.Some? {
        var dead := toBeDestroyed.value;
        status := status - {dead};
        place := place - {dead};
        deleted := deleted + [(dead, currentThread)];
        toBeDestroyed := None;
      }
    }

    /** Thread::Fork. */
    method Fork(t: Tid)
      requires Valid() && cpu.On? && t in place && place[t].New? && t !in ReadyThreads()
      modifies this, readyList.Repr()
      ensures Valid() && fresh(readyList.Repr() - old(readyList.Repr()))
          && Step(old(Snapshot()), Event.Fork(t)) == Next(Snapshot())
    {
      place := place[t := Code];
      ReadyToRun(t);
    }

    /** Thread::Yield, up to the switch. */
    method Yield()
      requires Valid() && cpu.On? && currentThread !in ReadyThreads()
      modifies this, readyList.Repr()
      ensures Valid() && fresh(readyList.Repr() - old(readyList.Repr()))
          && Step(old(Snapshot()), Event.Yield) == Next(Snapshot())
    {
      hide Step, Kernel.ReadyToRun, Kernel.Run;
      ghost var st := Snapshot();
      var next := FindNextToRun();
      ghost var popped := Snapshot();
      if next.Some? {
        ReadyToRun(currentThread);
        ghost var queued := Snapshot();
        Run(next.value, false);
        YieldStep(st, popped, queued, Snapshot());
      } else {
        YieldAlone(st);
      }
    }

    /** Semaphore::V, called by a thread or by an interrupt handler. */
    method V(s: Sid)
      requires Valid() && s in sems && (sems[s].queue != [] ==> sems[s].queue[0] !in ReadyThreads())
      modifies this, readyList.Repr()
      ensures Valid() && fresh(readyList.Repr() - old(readyList.Repr())) && DoV(old(Snapshot()), s) == Next(Snapshot())
    {
      hide DoV, Kernel.ReadyToRun;
      ghost var st := Snapshot();
      if sems[s].queue != [] {
        var waiter := sems[s].queue[0];
        sems := sems[s := sems[s].(queue := sems[s].queue[1..])];
        assert Snapshot() == Popped(st, s);
        ReadyToRun(waiter);
      }
      ghost var woken := Snapshot();
      sems := sems[s := sems[s].(value := sems[s].value + 1, ups := sems[s].ups + 1)];
      assert Snapshot() == Raised(woken, s);
      hide Popped, Raised;
      VStep(st, s, woken);
    }

    /** The loop test of Semaphore::P and what follows it up to the next switch:
        either a unit is taken or the thread has gone to sleep. */
    method TestValue(s: Sid) returns (taken: bool)
      requires Valid() && s in sems && currentThread !in sems[s].queue
      modifies this
      ensures Valid() && TestP(old(Snapshot()), s) == Next(Snapshot())
      ensures taken <==> cpu.On?
      ensures taken <==> old(sems[s].value) != 0
    {
      taken := sems[s].value != 0;
      if taken {
        sems := sems[s := sems[s].(value := sems[s].value - 1, downs := sems[s].downs + 1)];
        place := place[currentThread := Code];
        cpu := On;
      } else {
        sems := sems[s := sems[s].(queue := sems[s].queue + [currentThread])];
        place := place[currentThread := InP(s)];
        status := status[currentThread := Blocked];
        cpu := Asleep(false);
      }
    }

    /** The idle loop of Thread::Sleep and the switch that ends it.  Element i of
        `bursts` holds the semaphores raised by the handlers that the i-th call of
        Interrupt::Idle fires; with nothing left to fire the machine halts.  The
        whole call is a run of the transition system: those handlers one after
        another until a thread is ready, and then the switch to it. */
    method Sleep(bursts: seq<seq<Sid>>) returns (halted: bool, ghost run: seq<Event>, ghost calls: nat)
      requires Valid() && Inv(Snapshot()) && cpu.Asleep?
      requires forall i, j :: 0 <= i < |bursts| && 0 <= j < |bursts[i]| ==> bursts[i][j] in sems
      modifies this, readyList.Repr()
      ensures Valid() && fresh(readyList.Repr() - old(readyList.Repr()))
          && Exec(old(Snapshot()), run) == Next(Snapshot())
      ensures calls <= |bursts| && NobodyYet(old(Snapshot()), bursts, calls)
      ensures run == RaisedBy(bursts[..calls]) + if halted then [] else [Dispatch]
      ensures halted ==> cpu.Asleep? && ReadyThreads() == [] && calls == |bursts|
      ensures !halted ==> cpu.Resumed?
    {
      ghost var start := Snapshot();
      assert Exec(start, []) == Next(start);
      hide Exec, Inv, NobodyYet, RaisedBy;
      run, calls := Await(bursts, start);
      halted := readyList.numInList == 0;
      if !halted {
        run := SwitchAway(start, run);
      }
    }

    /** The loop of Thread::Sleep: until a thread is ready or there is nothing left to fire. */
    method Await(bursts: seq<seq<Sid>>, ghost start: State) returns (ghost run: seq<Event>, ghost calls: nat)
      requires Valid() && Inv(start) && start == Snapshot() && cpu.Asleep? && Exec(start, []) == Next(start)
      requires forall i, j :: 0 <= i < |bursts| && 0 <= j < |bursts[i]| ==> bursts[i][j] in sems
      modifies this, readyList.Repr()
      ensures Valid() && fresh(readyList.Repr() - old(readyList.Repr())) && cpu == old(cpu)
      ensures Exec(start, run) == Next(Snapshot())
      ensures calls <= |bursts| && run == RaisedBy(bursts[..calls]) && NobodyYet(start, bursts, calls)
      ensures ReadyThreads() != [] || calls == |bursts|
    {
      hide Exec, Inv, NobodyYet, RaisedBy;
      run := [];
      var i := 0;
      RaisedNone(start, bursts);
      while readyList.numInList == 0 && i < |bursts|
        invariant 0 <= i <= |bursts| && Valid() && fresh(readyList.Repr() - old(readyList.Repr()))
        invariant cpu == old(cpu) && sems.Keys == old(sems.Keys)
        invariant Exec(start, run) == Next(Snapshot())
        invariant run == RaisedBy(bursts[..i]) && NobodyYet(start, bursts, i)
      {
        RaisedMore(start, bursts, i, Snapshot());
        run := Idle(bursts[i], start, run);
        i := i + 1;
      }
      calls := i;
    }

    /** The switch that ends it. */
    method SwitchAway(ghost start: State, ghost before: seq<Event>) returns (ghost run: seq<Event>)
      requires Valid() && Inv(start) && cpu.Asleep? && ReadyThreads() != [] && Exec(start, before) == Next(Snapshot())
      modifies this, readyList
      ensures Valid() && readyList.Repr() <= old(readyList.Repr()) && cpu.Resumed?
      ensures run == before + [Dispatch] && Exec(start, run) == Next(Snapshot())
    {
      hide Exec, Inv;
      ghost var st := Snapshot();
      DispatchStep(start, before, st);
      run := before + [Dispatch];
      var next := FindNextToRun();
      assert Snapshot() == st.(ready := st.ready[1..]);
      Run(next.value, cpu.finishing);
    }

    /** Interrupt::Idle as the kernel sees it: some handlers run. */
    method Idle(burst: seq<Sid>, ghost start: State, ghost before: seq<Event>) returns (ghost run: seq<Event>)
      requires Valid() && Inv(start) && cpu.Asleep? && Exec(start, before) == Next(Snapshot())
      requires forall j :: 0 <= j < |burst| ==> burst[j] in sems
      modifies this, readyList.Repr()
      ensures Valid() && fresh(readyList.Repr() - old(readyList.Repr())) && cpu == old(cpu)
          && sems.Keys == old(sems.Keys)
      ensures Exec(start, run) == Next(Snapshot()) && run == before + HandlersOf(burst)
    {
      hide Exec, Inv, HandlersOf;
      run := before;
      for j := 0 to |burst|
        invariant Valid() && fresh(readyList.Repr() - old(readyList.Repr())) && cpu == old(cpu)
            && sems.Keys == old(sems.Keys)
        invariant Exec(start, run) == Next(Snapshot()) && run == before + HandlersOf(burst)[..j]
      {
        HandlersNext(burst, j);
        run := Raise(burst[j], start, run);
      }
    }

    /** One handler's V, as one more event of the run. */
    method Raise(s: Sid, ghost start: State, ghost before: seq<Event>) returns (ghost run: seq<Event>)
      requires Valid() && Inv(start) && cpu.Asleep? && Exec(start, before) == Next(Snapshot()) && s in sems
      modifies this, readyList.Repr()
      ensures Valid() && fresh(readyList.Repr() - old(readyList.Repr())) && cpu == old(cpu)
          && sems.Keys == old(sems.Keys)
      ensures Exec(start, run) == Next(Snapshot()) && run == before + [HandlerV(s)]
    {
      ghost var st := Snapshot();
      HandlerStep(start, before, st, s);
      run := before + [HandlerV(s)];
      hide Exec, Inv, DoV;
      V(s);
      RaiseFrame(st, s, Snapshot());
    }
  }

  /** The handlers that one call of Interrupt::Idle fires. */
  function HandlersOf(burst: seq<Sid>): (run: seq<Event>)
    ensures |run| == |burst|
  {
    seq(|burst|, j requires 0 <= j < |burst| => HandlerV(burst[j]))
  }

  lemma HandlersNext(burst: seq<Sid>, j: nat)
    requires j < |burst|
    ensures HandlersOf(burst)[..j + 1] == HandlersOf(burst)[..j] + [HandlerV(burst[j])]
  {
  }

  function RaisedBy(bursts: seq<seq<Sid>>): seq<Event> {
    if bursts == [] then [] else RaisedBy(bursts[..|bursts| - 1]) + HandlersOf(bursts[|bursts| - 1])
  }

  /** Before each of the first n calls of Interrupt::Idle no thread was ready. */
  ghost predicate NobodyYet(start: State, bursts: seq<seq<Sid>>, n: nat)
    requires n <= |bursts|
  {
    forall i :: 0 <= i < n ==> NobodyReady(Exec(start, RaisedBy(bursts[..i])))
  }

  ghost predicate NobodyReady(r: Outcome<State>) { r.Next? && r.state.ready == [] }

  lemma RaisedNone(start: State, bursts: seq<seq<Sid>>)
    ensures RaisedBy(bursts[..0]) == [] && NobodyYet(start, bursts, 0)
  {
  }

  lemma RaisedMore(start: State, bursts: seq<seq<Sid>>, i: nat, st: State)
    requires i < |bursts| && NobodyYet(start, bursts, i)
    requires Exec(start, RaisedBy(bursts[..i])) == Next(st) && st.ready == []
    ensures NobodyYet(start, bursts, i + 1)
    ensures RaisedBy(bursts[..i + 1]) == RaisedBy(bursts[..i]) + HandlersOf(bursts[i])
  {
    assert bursts[..i + 1][..i] == bursts[..i];
    hide Exec;
  }

  lemma YieldAlone(st: State)
    requires st.cpu.On? && st.ready == []
    ensures Step(st, Event.Yield) == Next(st)
  {
  }

  lemma YieldStep(st: State, popped: State, queued: State, st': State)
    requires st.cpu.On? && st.ready != [] && popped == st.(ready := st.ready[1..])
    requires Kernel.ReadyToRun(popped, st.current) == Next(queued)
    requires Kernel.Run(queued, st.ready[0], false) == Next(st')
    ensures Step(st, Event.Yield) == Next(st')
  {
    hide Kernel.ReadyToRun, Kernel.Run;
  }

  function Popped(st: State, s: Sid): State
    requires s in st.sems && st.sems[s].queue != []
  {
    st.(sems := st.sems[s := st.sems[s].(queue := st.sems[s].queue[1..])])
  }

  function Raised(st: State, s: Sid): State
    requires s in st.sems
  {
    st.(sems := st.sems[s := st.sems[s].(value := st.sems[s].value + 1, ups := st.sems[s].ups + 1)])
  }

  lemma VStep(st: State, s: Sid, woken: State)
    requires s in st.sems && s in woken.sems
    requires if st.sems[s].queue == [] then woken == st
             else Kernel.ReadyToRun(Popped(st, s), st.sems[s].queue[0]) == Next(woken)
    ensures DoV(st, s) == Next(Raised(woken, s))
  {
    hide Kernel.ReadyToRun;
  }

  lemma DispatchStep(start: State, before: seq<Event>, st: State)
    requires Inv(start) && Exec(start, before) == Next(st) && st.cpu.Asleep? && st.ready != []
    ensures st.cpu.finishing ==> st.toBeDestroyed.None?
    ensures Exec(start, before + [Dispatch]) == Kernel.Run(st.(ready := st.ready[1..]), st.ready[0], st.cpu.finishing)
  {
    RunKeeps(start, before);
    ExecOne(start, before, Dispatch);
    hide Exec;
  }

  lemma HandlerStep(start: State, before: seq<Event>, st: State, s: Sid)
    requires Inv(start) && Exec(start, before) == Next(st) && st.cpu.Asleep? && s in st.sems
    ensures Exec(start, before + [HandlerV(s)]) == DoV(st, s)
    ensures st.sems[s].queue != [] ==> st.sems[s].queue[0] !in st.ready
  {
    hide Exec, Step, Inv, DoV;
    RunKeeps(start, before);
    ExecOne(start, before, HandlerV(s));
    HandlerIs(st, s);
    FrontAside(st, s);
  }

  lemma HandlerIs(st: State, s: Sid)
    requires st.cpu.Asleep? && s in st.sems
    ensures Step(st, HandlerV(s)) == DoV(st, s)
  {
    hide DoV;
  }

  /** A thread queued on a semaphore is not ready. */
  lemma FrontAside(st: State, s: Sid)
    requires Inv(st) && s in st.sems
    ensures st.sems[s].queue != [] ==> st.sems[s].queue[0] !in st.ready
  {
  }

  lemma RaiseFrame(st: State, s: Sid, st': State)
    requires s in st.sems && DoV(st, s) == Next(st')
    ensures st'.cpu == st.cpu && st'.sems.Keys == st.sems.Keys
  {
  }

  /** A run and one more event. */
  lemma ExecOne(st: State, run: seq<Event>, e: Event)
    requires Exec(st, run).Next?
    ensures Exec(st, run + [e]) == Step(Exec(st, run).state, e)
  {
    assert (run + [e])[..|run|] == run;
  }
}
