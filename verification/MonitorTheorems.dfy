/** Properties of locks, condition variables and the synchronized list, for every
    schedule of any number of threads. */
module MonitorTheorems {
  import opened Base
  import opened Locks
  import opened Monitor
  import opened MonitorProofs

  ghost predicate Reachable<T(!new)>(m: Mon<T>) {
    exists start: Mon<T>, schedule: seq<Move<T>> :: Initial(start) && Exec(start, schedule) == Next(m)
  }

  lemma ReachableInv<T(!new)>(m: Mon<T>)
    requires Reachable(m)
    ensures Inv(m)
  {
    hide Inv, Initial;
    var start: Mon<T>, schedule: seq<Move<T>> :| Initial(start) && Exec(start, schedule) == Next(m);
    InitialInv(start);
    RunKeeps(start, schedule);
  }

  /** Lock mutual exclusion: the lock's semaphore plus the threads between the end
      of its P and the end of its V always make one. */
  lemma MutualExclusion<T(!new)>(m: Mon<T>)
    requires Reachable(m)
    ensures m.value + |set t | t in m.pc && !PhaseOf(m.pc[t]).Outside?| == 1
  {
    ReachableInv(m);
    ExactlyOne(m.value, m.holder, Phases(m.pc));
    assert (set t | t in Phases(m.pc) && !Phases(m.pc)[t].Outside?)
        == (set t | t in m.pc && !PhaseOf(m.pc[t]).Outside?);
  }

  /** IsHeldByCurrentThread is true exactly for the thread between the assignment
      of lockHolder in Acquire and its clearing in Release. */
  lemma HeldExactlyByHolder<T(!new)>(m: Mon<T>, t: Tid)
    requires Reachable(m) && t in m.pc
    ensures m.holder == Some(t) <==> PhaseOf(m.pc[t]).Held?
  {
    assert Locked(m) by { ReachableInv(m); }
    HolderIs(m, t);
  }

  /** The ASSERTs of Release, Wait and Signal, of List::RemoveFront on the list, of
      the wait queue, and the liveness of every waiter semaphore never fail; the
      only one that can is List::Append's, and exactly on an item already listed. */
  lemma AssertFailsOnlyOnDuplicate<T(!new)>(m: Mon<T>, t: Tid, call: Call<T>)
    requires Reachable(m)
    ensures Step(m, t, call).AssertFails? <==> AddsTwice(m, t)
  {
    hide Locked, Waiting, Listed, Claimed, Broadcasting;
    ReachableInv(m);
    StepKeeps(m, t, call);
  }

  // ----- the callers' side of that -----

  /** The item of an Append call before it is on the list. */
  function Pending<T>(pc: Pc<T>): Option<T> {
    match pc
    case AppendLock(item) => Some(item)
    case AppendOwn(item) => Some(item)
    case AppendAdd(item) => Some(item)
    case _ => None
  }

  /** The items of the Append calls made along a schedule. */
  function Issued<T(==)>(start: Mon<T>, schedule: seq<Move<T>>): seq<T> {
    if schedule == [] then []
    else
      var front := schedule[..|schedule| - 1];
      Issued(start, front) + IssuedBy(Exec(start, front), schedule[|schedule| - 1])
  }

  function IssuedBy<T>(before: Outcome<Mon<T>>, move: Move<T>): seq<T> {
    if before.Next? && move.thread in before.state.pc && before.state.pc[move.thread].Idle? && move.call.Append?
    then [move.call.item] else []
  }

  /** What has been appended, and what is about to be, was issued; no item twice. */
  ghost predicate Once<T>(m: Mon<T>, issued: seq<T>) {
    && (forall x :: x in m.appended ==> x in issued)
    && (forall t :: t in m.pc && Pending(m.pc[t]).Some? ==>
          Pending(m.pc[t]).value in issued && Pending(m.pc[t]).value !in m.appended)
    && (forall t, u :: t in m.pc && u in m.pc && t != u && Pending(m.pc[t]).Some? && Pending(m.pc[u]).Some? ==>
          Pending(m.pc[t]) != Pending(m.pc[u]))
  }

  /** A step adds an item only from AppendAdd, and a thread comes to hold an item only by its own call. */
  lemma StepAppends<T>(m: Mon<T>, t: Tid, call: Call<T>)
    requires Step(m, t, call).Next?
    ensures var m' := Step(m, t, call).state;
      && t in m.pc && m'.pc == m.pc[t := m'.pc[t]]
      && m'.appended == (if m.pc[t].AppendAdd? then m.appended + [m.pc[t].item] else m.appended)
      && Pending(m'.pc[t]) == (if m.pc[t].Idle? && call.Append? then Some(call.item)
                                else if m.pc[t].AppendLock? || m.pc[t].AppendOwn? then Pending(m.pc[t])
                                else None)
  {
    hide StepAppend, StepRemove, StepWait, StepBroadcast;
    var pc := m.pc[t];
    if pc.RemoveLock? || pc.RemoveOwn? || pc.RemoveTest? || pc.RemoveTake? || pc.RemoveDisown? || pc.RemoveUnlock? {
      RemoveAppendsNone(m, t);
    } else if BeforeSleep(pc) || AfterSleep(pc) || pc.WaitEnqueue? {
      WaitAppendsNone(m, t);
    } else if PcOfAppend(pc) {
      AppendAppends(m, t);
    } else if !pc.Idle? {
      BroadcastAppendsNone(m, t);
    }
  }

  predicate PcOfAppend<T>(pc: Pc<T>) {
    || pc.AppendLock? || pc.AppendOwn? || pc.AppendAdd? || pc.AppendSignal? || pc.AppendWake? || pc.AppendDisown?
    || pc.AppendUnlock?
  }

  lemma AppendAppends<T>(m: Mon<T>, t: Tid)
    requires t in m.pc && PcOfAppend(m.pc[t]) && StepAppend(m, t).Next?
    ensures var m' := StepAppend(m, t).state;
      && t in m'.pc && m'.pc == m.pc[t := m'.pc[t]]
      && m'.appended == (if m.pc[t].AppendAdd? then m.appended + [m.pc[t].item] else m.appended)
      && Pending(m'.pc[t]) == (if m.pc[t].AppendLock? || m.pc[t].AppendOwn? then Pending(m.pc[t]) else None)
  {
  }

  lemma RemoveAppendsNone<T>(m: Mon<T>, t: Tid)
    requires t in m.pc && StepRemove(m, t).Next?
    ensures var m' := StepRemove(m, t).state;
      t in m'.pc && m'.pc == m.pc[t := m'.pc[t]] && m'.appended == m.appended && Pending(m'.pc[t]).None?
  {
  }

  lemma WaitAppendsNone<T>(m: Mon<T>, t: Tid)
    requires t in m.pc && StepWait(m, t).Next?
    ensures var m' := StepWait(m, t).state;
      t in m'.pc && m'.pc == m.pc[t := m'.pc[t]] && m'.appended == m.appended && Pending(m'.pc[t]).None?
  {
  }

  lemma BroadcastAppendsNone<T>(m: Mon<T>, t: Tid)
    requires t in m.pc && StepBroadcast(m, t).Next?
    ensures var m' := StepBroadcast(m, t).state;
      t in m'.pc && m'.pc == m.pc[t := m'.pc[t]] && m'.appended == m.appended && Pending(m'.pc[t]).None?
  {
  }

  lemma StepOnce<T>(m: Mon<T>, issued: seq<T>, t: Tid, call: Call<T>)
    requires Once(m, issued) && Step(m, t, call).Next?
    requires Distinct(issued + IssuedBy(Next(m), Move(t, call)))
    ensures Once(Step(m, t, call).state, issued + IssuedBy(Next(m), Move(t, call)))
  {
    StepAppends(m, t, call);
    hide Step;
    var more := issued + IssuedBy(Next(m), Move(t, call));
    if m.pc[t].Idle? && call.Append? {
      assert more[|issued|] == call.item;
      assert forall k :: 0 <= k < |issued| ==> more[k] == issued[k];
    }
  }

  lemma {:induction false} RunOnce<T>(start: Mon<T>, schedule: seq<Move<T>>)
    requires Initial(start) && Distinct(Issued(start, schedule))
    ensures !Exec(start, schedule).AssertFails?
    ensures Exec(start, schedule).Next? ==> Once(Exec(start, schedule).state, Issued(start, schedule))
  {
    if schedule == [] {
    } else {
      var (front, move) := (schedule[..|schedule| - 1], schedule[|schedule| - 1]);
      var issued := Issued(start, front);
      DistinctFront(issued, IssuedBy(Exec(start, front), move));
      RunOnce(start, front);
      if Exec(start, front).Next? {
        var m := Exec(start, front).state;
        InitialInv(start);
        RunKeeps(start, front);
        hide Step, Initial, Locked, Waiting, Claimed, Broadcasting, Issued, Exec;
        StepKeeps(m, move.thread, move.call);
        assert !AddsTwice(m, move.thread);
        if Step(m, move.thread, move.call).Next? {
          StepOnce(m, issued, move.thread, move.call);
        }
      }
    }
  }

  lemma DistinctFront<T>(s: seq<T>, t: seq<T>)
    requires Distinct(s + t)
    ensures Distinct(s)
  {
    forall i, j | 0 <= i < j < |s| ensures s[i] != s[j] {
      assert (s + t)[i] == s[i] && (s + t)[j] == s[j];
    }
  }

  /** If no item is handed to Append twice, no schedule fails an ASSERT. */
  lemma NoScheduleFails<T>(start: Mon<T>, schedule: seq<Move<T>>)
    requires Initial(start) && Distinct(Issued(start, schedule))
    ensures !Exec(start, schedule).AssertFails?
  {
    RunOnce(start, schedule);
  }

  function Repeated<T>(move: Move<T>, n: nat): seq<Move<T>> { seq(n, _ => move) }

  lemma ExecMore<T>(m: Mon<T>, move: Move<T>, n: nat, at: Mon<T>)
    requires Exec(m, Repeated(move, n)) == Next(at)
    ensures Exec(m, Repeated(move, n + 1)) == Step(at, move.thread, move.call)
  {
    hide Step;
    assert Repeated(move, n + 1)[..n] == Repeated(move, n);
  }

  /** A thread alone on the lock, with nobody waiting, at the given statement. */
  ghost predicate Solo<T>(m: Mon<T>, t: Tid, pc: Pc<T>, list: seq<T>) {
    && t in m.pc && m.pc[t] == pc && m.list == list && m.waitQueue == []
    && m.value == (if PhaseOf(pc).Outside? then 1 else 0)
    && m.holder == (if PhaseOf(pc).Held? then Some(t) else None)
  }

  /** The seven statements of an Append by one thread. */
  lemma AppendAlone<T>(m: Mon<T>, move: Move<T>, n: nat, at: Mon<T>, x: T) returns (end: Mon<T>)
    requires Exec(m, Repeated(move, n)) == Next(at) && move.call == Append(x)
    requires Solo(at, move.thread, Idle, [])
    ensures Exec(m, Repeated(move, n + 7)) == Next(end) && Solo(end, move.thread, Idle, [x])
  {
    hide Exec, Step, Solo;
    assert at.list == [] by { SoloList(at, move.thread, Idle, []); }
    var at3 := ReachAdd(m, move, n, at, x);
    var (t, call) := (move.thread, move.call);
    ExecMore(m, move, n + 3, at3);
    SoloStep(at3, t, call, AppendAdd(x), [], AppendSignal, [x]);
    var at4 := Step(at3, t, call).state;
    ExecMore(m, move, n + 4, at4);
    SoloStep(at4, t, call, AppendSignal, [x], AppendDisown, [x]);
    var at5 := Step(at4, t, call).state;
    ExecMore(m, move, n + 5, at5);
    SoloStep(at5, t, call, AppendDisown, [x], AppendUnlock, [x]);
    var at6 := Step(at5, t, call).state;
    ExecMore(m, move, n + 6, at6);
    SoloStep(at6, t, call, AppendUnlock, [x], Idle, [x]);
    end := Step(at6, t, call).state;
  }

  lemma SoloList<T>(m: Mon<T>, t: Tid, pc: Pc<T>, list: seq<T>)
    requires Solo(m, t, pc, list)
    ensures m.list == list
  {
  }

  lemma SoloStep<T>(m: Mon<T>, t: Tid, call: Call<T>, pc: Pc<T>, list: seq<T>, pc': Pc<T>, list': seq<T>)
    requires Solo(m, t, pc, list)
    requires
      || (pc.AppendAdd? && list == [] && pc' == AppendSignal && list' == [pc.item])
      || (pc.AppendSignal? && pc' == AppendDisown && list' == list)
      || (pc.AppendDisown? && pc' == AppendUnlock && list' == list)
      || (pc.AppendUnlock? && pc' == Idle && list' == list)
    ensures Step(m, t, call).Next? && Solo(Step(m, t, call).state, t, pc', list')
  {
    hide StepRemove, StepWait, StepBroadcast;
  }

  lemma ReachAdd<T>(m: Mon<T>, move: Move<T>, n: nat, at: Mon<T>, x: T) returns (at3: Mon<T>)
    requires Exec(m, Repeated(move, n)) == Next(at) && move.call == Append(x)
    requires Solo(at, move.thread, Idle, at.list)
    ensures Exec(m, Repeated(move, n + 3)) == Next(at3) && Solo(at3, move.thread, AppendAdd(x), at.list)
  {
    var t := move.thread;
    hide Exec;
    ExecMore(m, move, n, at);
    var at1 := Step(at, t, move.call).state;
    assert Solo(at1, t, AppendLock(x), at.list);
    ExecMore(m, move, n + 1, at1);
    var at2 := Step(at1, t, move.call).state;
    assert at2.pc[t] == AppendOwn(x) && at2.value == 0;
    ExecMore(m, move, n + 2, at2);
    at3 := Step(at2, t, move.call).state;
  }

  /** Any thread that appends any item twice stops the kernel, with nobody else doing anything. */
  lemma DuplicateFails<T>(m: Mon<T>, t: Tid, x: T)
    requires Initial(m) && t in m.pc
    ensures Exec(m, Repeated(Move(t, Append(x)), 11)).AssertFails?
  {
    hide *;
    var move := Move(t, Append(x));
    ExecNone(m, move);
    InitialSolo(m, t);
    var first := AppendAlone(m, move, 0, m, x);
    SoloList(first, t, Idle, [x]);
    var second := ReachAdd(m, move, 7, first, x);
    ExecMore(m, move, 10, second);
    DuplicateStep(second, t, x, move.call);
  }

  lemma ExecNone<T>(m: Mon<T>, move: Move<T>)
    ensures Exec(m, Repeated(move, 0)) == Next(m)
  {
  }

  lemma InitialSolo<T>(m: Mon<T>, t: Tid)
    requires Initial(m) && t in m.pc
    ensures Solo(m, t, Idle, [])
  {
  }

  lemma DuplicateStep<T>(m: Mon<T>, t: Tid, x: T, call: Call<T>)
    requires Solo(m, t, AppendAdd(x), [x])
    ensures Step(m, t, call).AssertFails?
  {
    hide StepRemove, StepWait, StepBroadcast;
  }

  /** What was removed, followed by what is listed, is what was appended, in order. */
  lemma FirstInFirstOut<T(!new)>(m: Mon<T>)
    requires Reachable(m)
    ensures m.appended == m.removed + m.list
  {
    assert Listed(m) by { ReachableInv(m); }
  }

  /** No lost signal: with the lock free, if a waiter is still queued then there
      are at least as many signalled waiters on their way back to the test as
      there are items. */
  lemma NoLostSignal<T(!new)>(m: Mon<T>)
    requires Reachable(m) && m.value == 1 && m.waitQueue != []
    ensures |m.list| <= |set t | t in m.pc && Signalled(m, t)|
  {
    assert Claimed(m) && Locked(m) by { ReachableInv(m); }
    forall t | t in m.pc ensures !Deciding(m.pc[t]) {
      assert Phases(m.pc)[t] == PhaseOf(m.pc[t]);
    }
    assert Claims(m) == set t | t in m.pc && Signalled(m, t);
  }

  /** A signalled waiter's semaphore is raised, or the signaller is about to raise
      it: it cannot sleep for ever, even if it was signalled before its P. */
  lemma SignalArrives<T(!new)>(m: Mon<T>, w: Tid)
    requires Reachable(m) && Signalled(m, w)
    ensures w in m.pc
    ensures BeforeSleep(m.pc[w]) ==>
              m.waiter[w] == 1 || exists t :: t in m.pc && Wakes(m.pc[t], w) && m.holder == Some(t)
  {
    hide Locked, Reachable, Distinct;
    ReachableInv(m);
    if BeforeSleep(m.pc[w]) && m.waiter[w] != 1 {
      assert Coming(m, w);
      hide Inv, Waiting;
      var t :| t in m.pc && Wakes(m.pc[t], w);
      HolderIs(m, t);
    }
  }

  // ----- Broadcast -----

  predicate InBroadcast<T>(pc: Pc<T>) {
    pc.BroadTest? || pc.BroadWake?
  }

  /** Broadcast wakes the waiters present at its call and no others, in order. */
  lemma BroadcastWakesExactly<T(!new)>(m: Mon<T>, t: Tid)
    requires Reachable(m) && t in m.pc
    ensures m.pc[t].BroadTest? ==> m.pc[t].start == m.pc[t].woken + m.waitQueue
    ensures m.pc[t].BroadDisown? ==> m.pc[t].woken == m.pc[t].start && m.waitQueue == []
  {
    assert Broadcasting(m) by { ReachableInv(m); }
  }

  ghost function LoopRank<T>(m: Mon<T>, t: Tid): nat
    requires t in m.pc
  {
    2 * |m.waitQueue| + if m.pc[t].BroadWake? then 1 else 0
  }

  /** Broadcast terminates: no thread can join the queue while it runs, and each of
      its own steps brings the end nearer. */
  lemma BroadcastTerminates<T(!new)>(m: Mon<T>, t: Tid, u: Tid, call: Call<T>)
    requires Reachable(m) && t in m.pc && InBroadcast(m.pc[t]) && Step(m, u, call).Next?
    ensures var m' := Step(m, u, call).state;
            && t in m'.pc
            && (u != t ==> m'.pc[t] == m.pc[t] && m'.waitQueue == m.waitQueue)
            && (u == t && InBroadcast(m'.pc[t]) ==> LoopRank(m', t) < LoopRank(m, t))
            && (u == t && !InBroadcast(m'.pc[t]) ==> m'.pc[t].BroadDisown?)
  {
    assert Locked(m) by { ReachableInv(m); }
    hide Locked, Step, StepBroadcast;
    if u != t {
      BroadcastUndisturbed(m, t, u, call);
    } else {
      BroadcastAdvances(m, t, call);
    }
  }

  lemma BroadcastAdvances<T>(m: Mon<T>, t: Tid, call: Call<T>)
    requires t in m.pc && InBroadcast(m.pc[t]) && Step(m, t, call).Next?
    ensures var m' := Step(m, t, call).state;
            && t in m'.pc
            && (InBroadcast(m'.pc[t]) ==> LoopRank(m', t) < LoopRank(m, t))
            && (!InBroadcast(m'.pc[t]) ==> m'.pc[t].BroadDisown?)
  {
    hide StepAppend, StepRemove, StepWait;
  }

  /** While one thread holds the lock the others only call, wait for the lock or wake up. */
  lemma BroadcastUndisturbed<T>(m: Mon<T>, t: Tid, u: Tid, call: Call<T>)
    requires Locked(m) && t in m.pc && InBroadcast(m.pc[t]) && u != t && Step(m, u, call).Next?
    ensures var m' := Step(m, u, call).state; t in m'.pc && m'.pc[t] == m.pc[t] && m'.waitQueue == m.waitQueue
  {
    if !PhaseOf(m.pc[u]).Outside? {
      Alone(m, t, u);
    }
    hide Locked;
  }
}

/** Condition::Signal and Condition::Broadcast as they stand in the source.  Nobody
    else touches the queue while they run, because the caller holds the lock. */
module Conditions {
  import opened Base
  import opened Locks

  lemma NextWaiter(queue: seq<Tid>, woken: seq<Tid>, rest: seq<Tid>)
    requires Distinct(queue) && queue == woken + rest && rest != []
    ensures rest[0] !in woken && queue == woken + [rest[0]] + rest[1..]
  {
    assert queue[|woken|] == rest[0];
    assert forall i :: 0 <= i < |woken| ==> queue[i] == woken[i];
  }

  class Condition {
    var waitQueue: seq<Tid>
    var value: map<Tid, int>  // the waiter semaphores

    /** Condition::Signal. */
    method Signal()
      requires waitQueue != [] ==> waitQueue[0] in value
      modifies this
      ensures old(waitQueue) == [] ==> waitQueue == [] && value == old(value)
      ensures old(waitQueue) != [] ==>
                var w := old(waitQueue)[0];
                waitQueue == old(waitQueue)[1..] && value == old(value)[w := old(value)[w] + 1]
    {
      if waitQueue != [] {
        var waiter := waitQueue[0];
        waitQueue := waitQueue[1..];
        value := value[waiter := value[waiter] + 1];
      }
    }

    /** Condition::Broadcast: every queued waiter is raised exactly once and no
        other semaphore is touched. */
    method Broadcast()
      requires Distinct(waitQueue) && forall w :: w in waitQueue ==> w in value
      modifies this
      ensures waitQueue == []
      ensures value.Keys == old(value.Keys)
      ensures forall w :: w in value ==>
                            value[w] == old(value)[w] + if w in old(waitQueue) then 1 else 0
    {
      hide Distinct;
      ghost var woken := [];
      while waitQueue != []
        invariant old(waitQueue) == woken + waitQueue
        invariant value.Keys == old(value.Keys)
        invariant forall w :: w in value ==>
                                value[w] == old(value)[w] + if w in woken then 1 else 0
        decreases |waitQueue|
      {
        NextWaiter(old(waitQueue), woken, waitQueue);
        woken := woken + [waitQueue[0]];
        Signal();
      }
    }
  }
}
