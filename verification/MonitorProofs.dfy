/** What every interleaving of the monitor keeps. */
module MonitorProofs {
  import opened Base
  import opened Locks
  import opened Monitor

  lemma InitialInv<T>(m: Mon<T>)
    requires Initial(m)
    ensures Inv(m)
  {
    FreshLock(Phases(m.pc));
  }

  // ----- the lock -----

  /** At most one thread is between the end of P and the end of V. */
  lemma Alone<T>(m: Mon<T>, t: Tid, u: Tid)
    requires Locked(m) && t in m.pc && u in m.pc
    requires !PhaseOf(m.pc[t]).Outside? && !PhaseOf(m.pc[u]).Outside?
    ensures t == u
  {
    assert Phases(m.pc)[t] == PhaseOf(m.pc[t]) && Phases(m.pc)[u] == PhaseOf(m.pc[u]);
  }

  lemma HolderIs<T>(m: Mon<T>, t: Tid)
    requires Locked(m) && t in m.pc
    ensures PhaseOf(m.pc[t]).Held? <==> m.holder == Some(t)
  {
    assert Phases(m.pc)[t] == PhaseOf(m.pc[t]);
  }

  lemma Relock<T>(m: Mon<T>, m': Mon<T>, t: Tid, y: Pc<T>)
    requires Locked(m) && t in m.pc && m'.pc == m.pc[t := y]
    requires
      || (PhaseOf(m.pc[t]).Outside? && PhaseOf(y).Taken? && m.value > 0
          && m'.value == m.value - 1 && m'.holder == m.holder)
      || (PhaseOf(m.pc[t]).Taken? && PhaseOf(y).Held? && m'.value == m.value && m'.holder == Some(t))
      || (PhaseOf(m.pc[t]).Held? && PhaseOf(y).Releasing? && m'.value == m.value && m'.holder == None)
      || (PhaseOf(m.pc[t]).Releasing? && PhaseOf(y).Outside?
          && m'.value == m.value + 1 && m'.holder == m.holder)
      || (PhaseOf(m.pc[t]) == PhaseOf(y) && m'.value == m.value && m'.holder == m.holder)
    ensures Locked(m')
  {
    var phase := Phases(m.pc);
    assert Phases(m'.pc) == phase[t := PhaseOf(y)];
    assert phase[t] == PhaseOf(m.pc[t]);
    if phase[t] == PhaseOf(y) {
      assert phase[t := PhaseOf(y)] == phase;
    } else {
      match phase[t]
      case Outside => TakeKeeps(m.value, m.holder, phase, t);
      case Taken => HoldKeeps(m.value, m.holder, phase, t);
      case Held => DropKeeps(m.value, m.holder, phase, t);
      case Releasing => GiveKeeps(m.value, m.holder, phase, t);
    }
  }

  // ----- statements that only move a thread and the lock -----

  /** `t` may go to `y` without touching the list, the queue or a waiter. */
  ghost predicate Passes<T>(m: Mon<T>, t: Tid, y: Pc<T>)
    requires t in m.pc
  {
    var x := m.pc[t];
    && BeforeSleep(x) == BeforeSleep(y) && AfterSleep(x) == AfterSleep(y)
    && !x.AppendWake? && !x.BroadWake? && !y.AppendWake? && !y.BroadWake?
    && (Deciding(x) && !Deciding(y) ==> m.waitQueue == [] || m.list == [])
    && (y.RemoveTake? ==> m.list != [])
    && (y.WaitEnqueue? ==> m.list == [])
    && (y.BroadTest? ==> y.start == y.woken + m.waitQueue)
    && (y.BroadDisown? ==> y.start == y.woken && m.waitQueue == [])
  }

  lemma QuietOwned<T>(m: Mon<T>, m': Mon<T>, t: Tid)
    requires Waiting(m) && t in m.pc && t in m'.pc && m'.pc == m.pc[t := m'.pc[t]]
    requires m'.waitQueue == m.waitQueue && m'.waiter == m.waiter
    requires BeforeSleep(m.pc[t]) == BeforeSleep(m'.pc[t]) && AfterSleep(m.pc[t]) == AfterSleep(m'.pc[t])
    ensures Owned(m')
  {
    hide Raised;
  }

  /** A statement that changes neither the queue nor the waiters. */
  lemma QuietWaiting<T>(m: Mon<T>, m': Mon<T>, t: Tid)
    requires Waiting(m) && t in m.pc && t in m'.pc && m'.pc == m.pc[t := m'.pc[t]]
    requires m'.waitQueue == m.waitQueue && m'.waiter == m.waiter
    requires BeforeSleep(m.pc[t]) == BeforeSleep(m'.pc[t]) && AfterSleep(m.pc[t]) == AfterSleep(m'.pc[t])
    requires forall w :: !Wakes(m.pc[t], w) && !Wakes(m'.pc[t], w)
    ensures Waiting(m')
  {
    QuietOwned(m, m', t);
    QuietRaised(m, m', t);
  }

  /** A thread that was raising nobody moves: all who were to be raised still are. */
  lemma StillComing<T>(m: Mon<T>, m': Mon<T>, t: Tid)
    requires t in m.pc && t in m'.pc && m'.pc == m.pc[t := m'.pc[t]] && forall w :: !Wakes(m.pc[t], w)
    ensures forall w :: Coming(m, w) ==> Coming(m', w)
  {
    forall w | Coming(m, w) ensures Coming(m', w) {
      var u :| u in m.pc && Wakes(m.pc[u], w);
      assert u != t && m'.pc[u] == m.pc[u];
    }
  }

  /** Who is waiting for whom, after one thread that raises nobody moves to where it raises nobody. */
  ghost predicate Calm<T>(m: Mon<T>, m': Mon<T>, t: Tid) {
    && t in m.pc && t in m'.pc && m'.pc == m.pc[t := m'.pc[t]] && m'.waitQueue == m.waitQueue
    && (forall w :: !Wakes(m.pc[t], w) && !Wakes(m'.pc[t], w))
    && (forall w :: w != t ==> (w in m'.waiter <==> w in m.waiter))
    && (forall w :: w != t && w in m.waiter ==> m'.waiter[w] == m.waiter[w])
  }

  lemma RaisedKept<T>(m: Mon<T>, m': Mon<T>, t: Tid)
    requires Waiting(m) && Owned(m') && Calm(m, m', t)
    requires if BeforeSleep(m'.pc[t]) then m'.waiter == m.waiter && BeforeSleep(m.pc[t]) else !Coming(m, t)
    ensures Raised(m')
  {
    hide *;
    forall w | w in m'.waiter && w in m'.pc && BeforeSleep(m'.pc[w]) && w !in m'.waitQueue
      ensures m'.waiter[w] == 1 || (m'.waiter[w] == 0 && Coming(m', w))
    {
      SleeperRaised(m, m', t, w);
    }
    forall u, w | u in m'.pc && Wakes(m'.pc[u], w)
      ensures w in m'.waiter && w in m'.pc && BeforeSleep(m'.pc[w]) && w !in m'.waitQueue && m'.waiter[w] == 0
    {
      RaisedOne(m, m', t, u, w);
    }
    RaisedAll(m');
  }

  lemma RaisedAll<T>(m: Mon<T>)
    requires Owned(m)
    requires forall w :: w in m.waiter && w in m.pc && BeforeSleep(m.pc[w]) && w !in m.waitQueue ==>
                           m.waiter[w] == 1 || (m.waiter[w] == 0 && Coming(m, w))
    requires forall u, w :: u in m.pc && Wakes(m.pc[u], w) ==>
                              w in m.waiter && w in m.pc && BeforeSleep(m.pc[w]) && w !in m.waitQueue
                                  && m.waiter[w] == 0
    ensures Raised(m)
  {
    hide Distinct, Coming, AfterSleep, Wakes;
  }

  lemma SleeperRaised<T>(m: Mon<T>, m': Mon<T>, t: Tid, w: Tid)
    requires Waiting(m) && Calm(m, m', t)
    requires if BeforeSleep(m'.pc[t]) then m'.waiter == m.waiter && BeforeSleep(m.pc[t]) else !Coming(m, t)
    requires w in m'.waiter && w in m'.pc && BeforeSleep(m'.pc[w]) && w !in m'.waitQueue
    ensures m'.waiter[w] == 1 || (m'.waiter[w] == 0 && Coming(m', w))
  {
    StillComing(m, m', t);
    hide Distinct, Coming, AfterSleep, Wakes;
    assert w in m.waiter && m'.waiter[w] == m.waiter[w] && BeforeSleep(m.pc[w]);
  }

  lemma RaisedOne<T>(m: Mon<T>, m': Mon<T>, t: Tid, u: Tid, w: Tid)
    requires Waiting(m) && Calm(m, m', t)
    requires if BeforeSleep(m'.pc[t]) then m'.waiter == m.waiter && BeforeSleep(m.pc[t]) else !Coming(m, t)
    requires u in m'.pc && Wakes(m'.pc[u], w)
    ensures w in m'.waiter && w in m'.pc && BeforeSleep(m'.pc[w]) && w !in m'.waitQueue && m'.waiter[w] == 0
  {
    hide Distinct, AfterSleep;
    assert u != t && Wakes(m.pc[u], w);
    assert Coming(m, w);
  }

  /** Nobody is about to raise a thread that is not asleep, or raised already. */
  lemma NotComing<T>(m: Mon<T>, t: Tid)
    requires Waiting(m) && t in m.pc && (BeforeSleep(m.pc[t]) ==> t in m.waiter && m.waiter[t] != 0)
    ensures !Coming(m, t)
  {
    hide Distinct, AfterSleep;
  }

  lemma QuietRaised<T>(m: Mon<T>, m': Mon<T>, t: Tid)
    requires Waiting(m) && Owned(m') && t in m.pc && t in m'.pc && m'.pc == m.pc[t := m'.pc[t]]
    requires m'.waitQueue == m.waitQueue && m'.waiter == m.waiter
    requires BeforeSleep(m.pc[t]) == BeforeSleep(m'.pc[t])
    requires forall w :: !Wakes(m.pc[t], w) && !Wakes(m'.pc[t], w)
    ensures Raised(m')
  {
    hide Waiting, Owned, Raised, Coming;
    if !BeforeSleep(m.pc[t]) { NotComing(m, t); }
    RaisedKept(m, m', t);
  }

  lemma GotoClaimed<T>(m: Mon<T>, m': Mon<T>, t: Tid, y: Pc<T>)
    requires Claimed(m) && t in m.pc && Passes(m, t, y)
    requires m'.waitQueue == m.waitQueue && m'.waiter == m.waiter && m'.pc == m.pc[t := y] && m'.list == m.list
    ensures Claimed(m')
  {
    if m.waitQueue != [] && m.list != [] {
      CardSubset(Claims(m), Claims(m'));
    }
  }

  lemma GotoKeeps<T>(m: Mon<T>, value: int, holder: Option<Tid>, t: Tid, y: Pc<T>)
    requires Inv(m) && t in m.pc && Passes(m, t, y)
    requires Locked(Goto(m.(value := value, holder := holder), t, y))
    ensures Inv(Goto(m.(value := value, holder := holder), t, y))
  {
    hide Locked, Waiting, Claimed;
    var m' := Goto(m.(value := value, holder := holder), t, y);
    QuietWaiting(m, m', t);
    GotoClaimed(m, m', t, y);
  }

  // ----- the list -----

  lemma AddKeeps<T>(m: Mon<T>, t: Tid, item: T)
    requires Inv(m) && t in m.pc && m.pc[t] == AppendAdd(item) && item !in m.list
    ensures Inv(StepAppend(m, t).state)
  {
    hide Locked, Waiting, Listed, Claimed, Broadcasting;
    var m' := StepAppend(m, t).state;
    assert m' == m.(list := m.list + [item], appended := m.appended + [item], pc := m.pc[t := AppendSignal]);
    Relock(m, m', t, AppendSignal);
    QuietWaiting(m, m', t);
    AddListed(m, m', t, item);
    AddClaimed(m, m', t, item);
    AddBroadcasting(m, m', t);
  }

  lemma AddListed<T>(m: Mon<T>, m': Mon<T>, t: Tid, item: T)
    requires Locked(m) && Listed(m) && t in m.pc && m.pc[t] == AppendAdd(item)
    requires m'.list == m.list + [item] && m'.appended == m.appended + [item] && m'.removed == m.removed
    requires m'.pc == m.pc[t := AppendSignal]
    ensures Listed(m')
  {
    hide Locked;
    forall u | u in m.pc && u != t ensures !m.pc[u].WaitEnqueue? {
      if m.pc[u].WaitEnqueue? { Alone(m, t, u); }
    }
  }

  lemma AddClaimed<T>(m: Mon<T>, m': Mon<T>, t: Tid, item: T)
    requires Waiting(m) && Claimed(m) && t in m.pc && m.pc[t] == AppendAdd(item)
    requires m'.list == m.list + [item] && m'.waitQueue == m.waitQueue && m'.waiter == m.waiter
    requires m'.pc == m.pc[t := AppendSignal]
    ensures Claimed(m')
  {
    hide Waiting;
    Owner(m, t);
    CardAdd(Claims(m), Claims(m'), t);
  }

  lemma AddBroadcasting<T>(m: Mon<T>, m': Mon<T>, t: Tid)
    requires Broadcasting(m) && t in m.pc && m'.waitQueue == m.waitQueue && m'.pc == m.pc[t := AppendSignal]
    ensures Broadcasting(m')
  {
  }

  /** Only a waiting thread has a waiter semaphore. */
  lemma Owner<T>(m: Mon<T>, t: Tid)
    requires Waiting(m) && t in m.pc
    ensures t in m.waiter <==> BeforeSleep(m.pc[t]) || AfterSleep(m.pc[t])
    ensures t in m.waitQueue ==> t in m.waiter && BeforeSleep(m.pc[t])
  {
  }

  lemma TakeFrontKeeps<T>(m: Mon<T>, t: Tid)
    requires Inv(m) && t in m.pc && m.pc[t].RemoveTake?
    ensures StepRemove(m, t).Next? && Inv(StepRemove(m, t).state)
  {
    hide Locked, Waiting, Claimed;
    var m' := StepRemove(m, t).state;
    Relock(m, m', t, RemoveDisown(m.list[0]));
    QuietWaiting(m, m', t);
    forall u | u in m.pc && u != t ensures !m.pc[u].RemoveTake? {
      if m.pc[u].RemoveTake? { Alone(m, t, u); }
    }
    TakeFrontClaims(m, t);
  }

  lemma TakeFrontClaims<T>(m: Mon<T>, t: Tid)
    requires Locked(m) && Waiting(m) && Claimed(m) && t in m.pc && m.pc[t].RemoveTake? && m.list != []
    ensures Claimed(StepRemove(m, t).state)
  {
    hide Locked, Waiting;
    var m' := StepRemove(m, t).state;
    assert t !in m.waiter by { Owner(m, t); }
    CardAdd(Claims(m'), Claims(m), t);
  }

  // ----- signalling -----

  /** No thread but `t` is about to raise a waiter. */
  ghost predicate OnlyWaker<T>(m: Mon<T>, t: Tid) {
    forall u, w :: u in m.pc && Wakes(m.pc[u], w) ==> u == t
  }

  lemma HolderOnlyWaker<T>(m: Mon<T>, t: Tid)
    requires Locked(m) && t in m.pc && PhaseOf(m.pc[t]).Held?
    ensures OnlyWaker(m, t)
  {
    hide Locked;
    forall u, w | u in m.pc && Wakes(m.pc[u], w) ensures u == t { Alone(m, t, u); }
  }

  /** The front waiter leaves the queue; `t` goes on to raise it. */
  lemma PopOwned<T>(m: Mon<T>, m': Mon<T>, t: Tid)
    requires Waiting(m) && t in m.pc && m.waitQueue != []
    requires m.pc[t].AppendSignal? || m.pc[t].BroadTest?
    requires t in m'.pc && (m'.pc[t].AppendWake? || m'.pc[t].BroadWake?)
    requires m'.waitQueue == m.waitQueue[1..] && m'.waiter == m.waiter && m'.pc == m.pc[t := m'.pc[t]]
    ensures Owned(m') && m.waitQueue[0] !in m'.waitQueue && m.waitQueue[0] != t
    ensures forall v :: v in m.waitQueue <==> v == m.waitQueue[0] || v in m'.waitQueue
  {
    hide Raised, Distinct;
    PopDistinct(m.waitQueue);
  }

  lemma PopDistinct(queue: seq<Tid>)
    requires Distinct(queue) && queue != []
    ensures Distinct(queue[1..]) && queue[0] !in queue[1..]
    ensures forall v :: v in queue <==> v == queue[0] || v in queue[1..]
  {
    assert queue == [queue[0]] + queue[1..];
  }

  lemma PopWaiting<T>(m: Mon<T>, m': Mon<T>, t: Tid)
    requires Waiting(m) && OnlyWaker(m, t) && t in m.pc && m.waitQueue != []
    requires m.pc[t].AppendSignal? || m.pc[t].BroadTest?
    requires t in m'.pc && (m'.pc[t].AppendWake? || m'.pc[t].BroadWake?) && m'.pc[t].waiter == m.waitQueue[0]
    requires m'.waitQueue == m.waitQueue[1..] && m'.waiter == m.waiter && m'.pc == m.pc[t := m'.pc[t]]
    ensures Waiting(m')
  {
    hide Raised, Distinct;
    PopOwned(m, m', t);
    PopRaised(m, m', t);
  }

  lemma PopRaised<T>(m: Mon<T>, m': Mon<T>, t: Tid)
    requires Waiting(m) && OnlyWaker(m, t) && t in m.pc && m.waitQueue != [] && !m.pc[t].AppendWake?
        && !m.pc[t].BroadWake?
    requires t in m'.pc && (m'.pc[t].AppendWake? || m'.pc[t].BroadWake?) && m'.pc[t].waiter == m.waitQueue[0]
    requires !BeforeSleep(m.pc[t]) && m'.waiter == m.waiter && m'.pc == m.pc[t := m'.pc[t]]
    requires Owned(m') && m.waitQueue[0] !in m'.waitQueue
    requires forall v :: v in m.waitQueue <==> v == m.waitQueue[0] || v in m'.waitQueue
    ensures Raised(m')
  {
    hide Distinct;
    var first := m.waitQueue[0];
    NoneComing(m, t);
    assert Wakes(m'.pc[t], first);
    assert Coming(m', first);
    forall w | w in m'.waiter && w in m'.pc && BeforeSleep(m'.pc[w]) && w !in m'.waitQueue
      ensures m'.waiter[w] == 1 || (m'.waiter[w] == 0 && Coming(m', w))
    {
      hide Coming;
      assert w == first || w !in m.waitQueue;
    }
    assert forall u, w :: u in m'.pc && Wakes(m'.pc[u], w) ==> u == t && w == first;
    hide Waiting, Coming, OnlyWaker;
    RaisedAll(m');
  }

  lemma NoneComing<T>(m: Mon<T>, t: Tid)
    requires OnlyWaker(m, t) && t in m.pc && !m.pc[t].AppendWake? && !m.pc[t].BroadWake?
    ensures forall w :: !Coming(m, w)
  {
  }

  lemma PopClaims<T>(m: Mon<T>, m': Mon<T>, t: Tid)
    requires Waiting(m) && t in m.pc && m.waitQueue != []
    requires m.pc[t].AppendSignal? || m.pc[t].BroadTest?
    requires t in m'.pc && (m'.pc[t].AppendWake? || m'.pc[t].BroadWake?)
    requires m'.waitQueue == m.waitQueue[1..] && m'.waiter == m.waiter && m'.pc == m.pc[t := m'.pc[t]]
    ensures |Claims(m)| <= |Claims(m')|
  {
    hide Raised, Distinct;
    var w := m.waitQueue[0];
    PopOwned(m, m', t);
    assert w in m.waiter && t !in m.waiter;
    assert w !in Claims(m) && w in Claims(m') && t !in Claims(m');
    assert Claims(m) - {t} <= Claims(m') - {w};
    CardSubset(Claims(m) - {t}, Claims(m') - {w});
  }

  lemma PopKeeps<T>(m: Mon<T>, t: Tid, y: Pc<T>)
    requires Inv(m) && t in m.pc && m.waitQueue != []
    requires
      || (m.pc[t].AppendSignal? && y == AppendWake(m.waitQueue[0]))
      || (m.pc[t].BroadTest? && y == BroadWake(m.waitQueue[0], m.pc[t].start, m.pc[t].woken))
    ensures Inv(Goto(m.(waitQueue := m.waitQueue[1..]), t, y))
  {
    hide Locked, Waiting;
    var m' := Goto(m.(waitQueue := m.waitQueue[1..]), t, y);
    assert m.waitQueue == [m.waitQueue[0]] + m'.waitQueue;
    Relock(m, m', t, y);
    HolderOnlyWaker(m, t);
    PopWaiting(m, m', t);
    PopClaims(m, m', t);
    NoOtherBroadcast(m, t);
  }

  lemma NoOtherBroadcast<T>(m: Mon<T>, t: Tid)
    requires Locked(m) && t in m.pc && PhaseOf(m.pc[t]).Held?
    ensures forall u :: u in m.pc && u != t ==>
                          !m.pc[u].BroadTest? && !m.pc[u].BroadWake? && !m.pc[u].BroadDisown?
  {
    hide Locked;
    forall u | u in m.pc && u != t
      ensures !m.pc[u].BroadTest? && !m.pc[u].BroadWake? && !m.pc[u].BroadDisown?
    {
      if m.pc[u].BroadTest? || m.pc[u].BroadWake? || m.pc[u].BroadDisown? { Alone(m, t, u); }
    }
  }

  lemma WakeWaiting<T>(m: Mon<T>, m': Mon<T>, t: Tid, w: Tid)
    requires Waiting(m) && OnlyWaker(m, t) && t in m.pc && Wakes(m.pc[t], w)
    requires w in m.waiter && t in m'.pc && (m'.pc[t].AppendDisown? || m'.pc[t].BroadTest?)
    requires m'.waitQueue == m.waitQueue && m'.waiter == m.waiter[w := m.waiter[w] + 1]
    requires m'.pc == m.pc[t := m'.pc[t]]
    ensures Waiting(m')
  {
    WakeTarget(m, t, w);
    WakeOwned(m, m', t, w);
    assert forall u, v :: u in m'.pc ==> !Wakes(m'.pc[u], v);
    hide Raised, Distinct, OnlyWaker, Coming;
    WakeRaised(m, m', t, w);
  }

  lemma WakeRaised<T>(m: Mon<T>, m': Mon<T>, t: Tid, w: Tid)
    requires Waiting(m) && OnlyWaker(m, t) && t in m.pc && Wakes(m.pc[t], w)
    requires w in m.waiter && t in m'.pc && !BeforeSleep(m'.pc[t])
    requires m'.waitQueue == m.waitQueue && m'.waiter == m.waiter[w := m.waiter[w] + 1]
    requires m'.pc == m.pc[t := m'.pc[t]] && Owned(m')
    requires forall u, v :: u in m'.pc ==> !Wakes(m'.pc[u], v)
    ensures Raised(m')
  {
    hide Distinct;
    assert m.waiter[w] == 0 && forall v :: Coming(m, v) ==> v == w;
    forall v | v in m'.waiter && v in m'.pc && BeforeSleep(m'.pc[v]) && v !in m'.waitQueue
      ensures m'.waiter[v] == 1 || (m'.waiter[v] == 0 && Coming(m', v))
    {
      hide Coming, Wakes;
      assert v == w || m'.waiter[v] == m.waiter[v];
    }
    hide Waiting, Coming, OnlyWaker, Owned;
    RaisedAll(m');
  }

  lemma WakeOwned<T>(m: Mon<T>, m': Mon<T>, t: Tid, w: Tid)
    requires Owned(m) && t in m.pc && (m.pc[t].AppendWake? || m.pc[t].BroadWake?)
    requires w in m.waiter && BeforeSleep(m.pc[w]) && w !in m.waitQueue
    requires t in m'.pc && (m'.pc[t].AppendDisown? || m'.pc[t].BroadTest?)
    requires m'.waitQueue == m.waitQueue && m'.waiter == m.waiter[w := m.waiter[w] + 1]
    requires m'.pc == m.pc[t := m'.pc[t]]
    ensures Owned(m')
  {
    hide Distinct;
  }

  /** The semaphore about to be raised is alive and no longer queued. */
  lemma WakeTarget<T>(m: Mon<T>, t: Tid, w: Tid)
    requires Waiting(m) && t in m.pc && Wakes(m.pc[t], w)
    ensures w in m.waiter && BeforeSleep(m.pc[w]) && w !in m.waitQueue
  {
  }

  lemma WakeKeeps<T>(m: Mon<T>, t: Tid, w: Tid, y: Pc<T>)
    requires Inv(m) && t in m.pc
    requires
      || (m.pc[t] == AppendWake(w) && y.AppendDisown?)
      || (m.pc[t].BroadWake? && m.pc[t].waiter == w && y == BroadTest(m.pc[t].start, m.pc[t].woken + [w]))
    ensures Wake(m, t, w, y).Next? && Inv(Wake(m, t, w, y).state)
  {
    hide Locked, Waiting;
    HolderOnlyWaker(m, t);
    WakeTarget(m, t, w);
    var m' := Wake(m, t, w, y).state;
    Relock(m, m', t, y);
    WakeWaiting(m, m', t, w);
    assert Claims(m') == Claims(m);
    NoOtherBroadcast(m, t);
  }

  // ----- waiting -----

  lemma JoinWaiting<T>(m: Mon<T>, m': Mon<T>, t: Tid)
    requires Waiting(m) && OnlyWaker(m, t) && t in m.pc && m.pc[t].WaitEnqueue?
    requires m'.waitQueue == m.waitQueue + [t] && m'.waiter == m.waiter[t := 0]
    requires m'.pc == m.pc[t := WaitDisown]
    ensures Waiting(m')
  {
    assert t !in m.waiter && t !in m.waitQueue;
    DistinctAppend(m.waitQueue, t);
  }

  lemma JoinKeeps<T>(m: Mon<T>, t: Tid)
    requires Inv(m) && t in m.pc && m.pc[t].WaitEnqueue?
    ensures StepWait(m, t).Next? && Inv(StepWait(m, t).state)
  {
    hide Locked, Waiting;
    HolderIs(m, t);
    Owner(m, t);
    var m' := StepWait(m, t).state;
    Relock(m, m', t, WaitDisown);
    HolderOnlyWaker(m, t);
    JoinWaiting(m, m', t);
    NoOtherBroadcast(m, t);
  }

  lemma SleptOwned<T>(m: Mon<T>, m': Mon<T>, t: Tid)
    requires Waiting(m) && t in m.pc && m.pc[t].WaitSleep? && t in m.waiter && m.waiter[t] > 0
    requires m'.waitQueue == m.waitQueue && m'.waiter == m.waiter[t := m.waiter[t] - 1]
    requires m'.pc == m.pc[t := WaitLock]
    ensures Owned(m')
  {
    hide Distinct, Coming;
  }

  lemma SleptWaiting<T>(m: Mon<T>, m': Mon<T>, t: Tid)
    requires Waiting(m) && t in m.pc && m.pc[t].WaitSleep? && t in m.waiter && m.waiter[t] > 0
    requires m'.waitQueue == m.waitQueue && m'.waiter == m.waiter[t := m.waiter[t] - 1]
    requires m'.pc == m.pc[t := WaitLock]
    ensures Waiting(m')
  {
    hide Owned, Raised, Coming;
    SleptOwned(m, m', t);
    NotComing(m, t);
    RaisedKept(m, m', t);
  }

  lemma SleptKeeps<T>(m: Mon<T>, t: Tid)
    requires Inv(m) && t in m.pc && m.pc[t].WaitSleep? && StepWait(m, t).Next?
    ensures Inv(StepWait(m, t).state)
  {
    hide Locked, Waiting;
    var m' := StepWait(m, t).state;
    Relock(m, m', t, WaitLock);
    SleptWaiting(m, m', t);
    assert Claims(m') == Claims(m);
  }

  lemma FreeOwned<T>(m: Mon<T>, m': Mon<T>, t: Tid)
    requires Waiting(m) && t in m.pc && m.pc[t].WaitFree?
    requires m'.waitQueue == m.waitQueue && m'.waiter == m.waiter - {t} && m'.pc == m.pc[t := RemoveTest]
    ensures Owned(m')
  {
    hide Distinct, Raised;
  }

  lemma FreeWaiting<T>(m: Mon<T>, m': Mon<T>, t: Tid)
    requires Waiting(m) && t in m.pc && m.pc[t].WaitFree?
    requires m'.waitQueue == m.waitQueue && m'.waiter == m.waiter - {t} && m'.pc == m.pc[t := RemoveTest]
    ensures Waiting(m')
  {
    hide Owned, Raised, Coming;
    FreeOwned(m, m', t);
    NotComing(m, t);
    RaisedKept(m, m', t);
  }

  lemma FreeKeeps<T>(m: Mon<T>, t: Tid)
    requires Inv(m) && t in m.pc && m.pc[t].WaitFree?
    ensures Inv(StepWait(m, t).state)
  {
    hide Locked, Waiting;
    var m' := StepWait(m, t).state;
    Relock(m, m', t, RemoveTest);
    FreeWaiting(m, m', t);
    Owner(m, t);
    assert Claims(m') == Claims(m);
  }

  // ----- every statement -----

  lemma AppendKeeps<T>(m: Mon<T>, t: Tid)
    requires Inv(m) && t in m.pc
    requires m.pc[t].AppendAdd? ==> m.pc[t].item !in m.list
    ensures !StepAppend(m, t).AssertFails?
    ensures StepAppend(m, t).Next? ==> Inv(StepAppend(m, t).state)
  {
    hide Locked, Waiting, Listed, Claimed, Broadcasting;
    HolderIs(m, t);
    if m.pc[t].AppendWake? {
      WakeKeeps(m, t, m.pc[t].waiter, AppendDisown);
    } else if StepAppend(m, t).Next? {
      var m' := StepAppend(m, t).state;
      if m.pc[t].AppendAdd? {
        AddKeeps(m, t, m.pc[t].item);
      } else if m.pc[t].AppendSignal? && m.waitQueue != [] {
        PopKeeps(m, t, m'.pc[t]);
      } else {
        Relock(m, m', t, m'.pc[t]);
        GotoKeeps(m, m'.value, m'.holder, t, m'.pc[t]);
      }
    }
  }

  lemma RemoveKeeps<T>(m: Mon<T>, t: Tid)
    requires Inv(m) && t in m.pc
    ensures !StepRemove(m, t).AssertFails?
    ensures StepRemove(m, t).Next? ==> Inv(StepRemove(m, t).state)
  {
    hide Locked, Waiting, Listed, Claimed, Broadcasting;
    HolderIs(m, t);
    if m.pc[t].RemoveTake? {
      TakeFrontKeeps(m, t);
    } else if StepRemove(m, t).Next? {
      var m' := StepRemove(m, t).state;
      Relock(m, m', t, m'.pc[t]);
      GotoKeeps(m, m'.value, m'.holder, t, m'.pc[t]);
    }
  }

  lemma WaitKeeps<T>(m: Mon<T>, t: Tid)
    requires Inv(m) && t in m.pc
    ensures !StepWait(m, t).AssertFails?
    ensures StepWait(m, t).Next? ==> Inv(StepWait(m, t).state)
  {
    hide Locked, Waiting, Listed, Claimed, Broadcasting;
    HolderIs(m, t);
    Owner(m, t);
    if m.pc[t].WaitEnqueue? {
      JoinKeeps(m, t);
    } else if StepWait(m, t).Next? {
      var m' := StepWait(m, t).state;
      if m.pc[t].WaitSleep? {
        SleptKeeps(m, t);
      } else if m.pc[t].WaitFree? {
        FreeKeeps(m, t);
      } else {
        Relock(m, m', t, m'.pc[t]);
        GotoKeeps(m, m'.value, m'.holder, t, m'.pc[t]);
      }
    }
  }

  /** The loop of Broadcast keeps count of what it has woken. */
  lemma Progress<T>(m: Mon<T>, t: Tid)
    requires Broadcasting(m) && t in m.pc && m.pc[t].BroadTest?
    ensures m.pc[t].start == m.pc[t].woken + m.waitQueue
  {
  }

  lemma BroadcastKeeps<T>(m: Mon<T>, t: Tid)
    requires Inv(m) && t in m.pc
    ensures !StepBroadcast(m, t).AssertFails?
    ensures StepBroadcast(m, t).Next? ==> Inv(StepBroadcast(m, t).state)
  {
    hide Locked, Waiting, Listed, Claimed, Broadcasting;
    HolderIs(m, t);
    if m.pc[t].BroadWake? {
      WakeKeeps(m, t, m.pc[t].waiter, BroadTest(m.pc[t].start, m.pc[t].woken + [m.pc[t].waiter]));
    } else if StepBroadcast(m, t).Next? {
      var m' := StepBroadcast(m, t).state;
      if m.pc[t].BroadTest? && m.waitQueue != [] {
        PopKeeps(m, t, m'.pc[t]);
      } else {
        if m.pc[t].BroadTest? { Progress(m, t); }
        Relock(m, m', t, m'.pc[t]);
        GotoKeeps(m, m'.value, m'.holder, t, m'.pc[t]);
      }
    }
  }

  /** The only ASSERT a run can fail is List::Append's: an item already listed. */
  ghost predicate AddsTwice<T>(m: Mon<T>, t: Tid) {
    t in m.pc && m.pc[t].AppendAdd? && m.pc[t].item in m.list
  }

  lemma StepKeeps<T>(m: Mon<T>, t: Tid, call: Call<T>)
    requires Inv(m)
    ensures Step(m, t, call).AssertFails? ==> AddsTwice(m, t)
    ensures Step(m, t, call).Next? ==> Inv(Step(m, t, call).state)
  {
    hide Locked, Waiting, Listed, Claimed, Broadcasting;
    if t in m.pc && !AddsTwice(m, t) {
      AppendKeeps(m, t);
      RemoveKeeps(m, t);
      WaitKeeps(m, t);
      BroadcastKeeps(m, t);
      if m.pc[t].Idle? {
        var m' := Step(m, t, call).state;
        Relock(m, m', t, m'.pc[t]);
        GotoKeeps(m, m.value, m.holder, t, m'.pc[t]);
      }
    }
  }

  lemma {:induction false} RunKeeps<T>(m: Mon<T>, schedule: seq<Move<T>>)
    requires Inv(m)
    ensures Exec(m, schedule).Next? ==> Inv(Exec(m, schedule).state)
  {
    hide Inv;
    if schedule == [] {
    } else {
      RunKeeps(m, schedule[..|schedule| - 1]);
      if Exec(m, schedule[..|schedule| - 1]).Next? {
        var move := schedule[|schedule| - 1];
        StepKeeps(Exec(m, schedule[..|schedule| - 1]).state, move.thread, move.call);
      }
    }
  }
}
