/** What every run of the kernel keeps. */
module KernelProofs {
  import opened Base
  import opened Kernel

  lemma BootInv(main: Tid)
    ensures Inv(Boot(main))
  {
  }

  lemma NewThreadKeeps(st: State, t: Tid)
    requires Inv(st) && st.cpu.On? && Fresh(st, t)
    ensures Inv(Step(st, NewThread(t)).state)
  {
    NewThreadShape(st, t);
    NewThreadQueue(st, t);
    SameCount(st, Step(st, NewThread(t)).state);
  }

  lemma NewThreadShape(st: State, t: Tid)
    requires Inv(st) && st.cpu.On? && Fresh(st, t)
    ensures var st' := Step(st, NewThread(t)).state; Placed(st') && OnCpu(st') && Buried(st') && Labelled(st')
  {
    hide Counted, Queued, Distinct;
  }

  lemma NewThreadQueue(st: State, t: Tid)
    requires Inv(st) && st.cpu.On? && Fresh(st, t)
    ensures Queued(Step(st, NewThread(t)).state)
  {
    hide Counted, Buried, Labelled, Distinct;
  }

  /** The threads inside P, and the semaphores, are as before. */
  ghost predicate SameSleepers(st: State, st': State) {
    && st'.sems == st.sems
    && (forall t :: t in st'.place && st'.place[t].InP? ==> t in st.place && st.place[t] == st'.place[t])
    && (forall t :: t in st.place && st.place[t].InP? ==> t in st'.place && st'.place[t] == st.place[t])
  }

  lemma SameCount(st: State, st': State)
    requires Counted(st) && SameSleepers(st, st')
    ensures Counted(st')
  {
    forall s | s in st.sems ensures Woken(st', s) == Woken(st, s) {}
  }

  lemma ForkKeeps(st: State, t: Tid)
    requires Inv(st) && st.cpu.On? && t in st.place && st.place[t].New?
    ensures Step(st, Fork(t)).Next? && Inv(Step(st, Fork(t)).state)
  {
    ForkShape(st, t);
    ForkQueue(st, t);
    hide Placed, Queued, OnCpu, Buried, Labelled, Counted;
    SameCount(st, Step(st, Fork(t)).state);
  }

  lemma ForkShape(st: State, t: Tid)
    requires Inv(st) && st.cpu.On? && t in st.place && st.place[t].New?
    ensures Step(st, Fork(t)).Next?
    ensures var st' := Step(st, Fork(t)).state; Placed(st') && OnCpu(st') && Buried(st') && Labelled(st')
  {
    hide Counted, Queued;
  }

  lemma ForkQueue(st: State, t: Tid)
    requires Inv(st) && st.cpu.On? && t in st.place && st.place[t].New? && Step(st, Fork(t)).Next?
    ensures Queued(Step(st, Fork(t)).state)
  {
    hide Counted, Buried, Labelled;
  }

  lemma NewSemaphoreKeeps(st: State, s: Sid, v: int)
    requires Inv(st) && st.cpu.On? && s !in st.sems && v >= 0
    ensures Inv(Step(st, NewSemaphore(s, v)).state)
  {
    var st' := Step(st, NewSemaphore(s, v)).state;
    forall r | r in st.sems ensures Woken(st', r) == Woken(st, r) {}
  }

  /** P finds the value zero: the thread joins the queue and sleeps. */
  lemma TestSleepsShape(st: State, s: Sid)
    requires Inv(st) && s in st.sems && st.sems[s].value == 0
    requires st.cpu.On? || (st.cpu.Retest? && st.place[st.current] == InP(s))
    ensures TestP(st, s).Next?
    ensures var st' := TestP(st, s).state;
            Placed(st') && OnCpu(st') && Buried(st') && Labelled(st')
  {
    assert st.current !in st.sems[s].queue;
  }

  lemma TestSleepsQueue(st: State, s: Sid)
    requires Inv(st) && s in st.sems && st.sems[s].value == 0
    requires st.cpu.On? || (st.cpu.Retest? && st.place[st.current] == InP(s))
    ensures TestP(st, s).Next? && Queued(TestP(st, s).state)
  {
    assert st.current !in st.sems[s].queue;
    DistinctAppend(st.sems[s].queue, st.current);
  }

  lemma TestSleepsCount(st: State, s: Sid)
    requires Inv(st) && s in st.sems && st.sems[s].value == 0
    requires st.cpu.On? || (st.cpu.Retest? && st.place[st.current] == InP(s))
    ensures TestP(st, s).Next? && Counted(TestP(st, s).state)
  {
    hide Labelled, Buried;
    assert st.current !in st.sems[s].queue;
    var st' := TestP(st, s).state;
    forall r | r in st.sems && r != s ensures Woken(st', r) == Woken(st, r) {}
    assert Woken(st', s) == Woken(st, s) - {st.current};
  }

  /** P finds a positive value and takes one unit of it. */
  lemma TestTakesShape(st: State, s: Sid)
    requires Inv(st) && s in st.sems && st.sems[s].value != 0
    requires st.cpu.On? || (st.cpu.Retest? && st.place[st.current] == InP(s))
    ensures TestP(st, s).Next?
    ensures var st' := TestP(st, s).state;
            Placed(st') && OnCpu(st') && Buried(st') && Labelled(st')
  {
    assert st.current !in st.sems[s].queue;
  }

  lemma TestTakesQueue(st: State, s: Sid)
    requires Inv(st) && s in st.sems && st.sems[s].value != 0
    requires st.cpu.On? || (st.cpu.Retest? && st.place[st.current] == InP(s))
    ensures TestP(st, s).Next? && Queued(TestP(st, s).state)
  {
    assert st.current !in st.sems[s].queue;
  }

  lemma TestTakesCount(st: State, s: Sid)
    requires Inv(st) && s in st.sems && st.sems[s].value != 0
    requires st.cpu.On? || (st.cpu.Retest? && st.place[st.current] == InP(s))
    ensures TestP(st, s).Next? && Counted(TestP(st, s).state)
  {
    NotQueued(st, s);
    hide Labelled, Buried, Queued, Distinct;
    TestTakesWoken(st, s);
    hide Woken, Placed, OnCpu;
  }

  lemma TestTakesWoken(st: State, s: Sid)
    requires s in st.sems && st.sems[s].value != 0 && st.current in st.place && st.current !in st.sems[s].queue
    requires st.place[st.current].Code? || st.place[st.current] == InP(s)
    ensures TestP(st, s).Next?
    ensures forall r :: r in st.sems && r != s ==> Woken(TestP(st, s).state, r) == Woken(st, r)
    ensures Woken(TestP(st, s).state, s) == Woken(st, s) - {st.current}
  {
    var st' := TestP(st, s).state;
    forall r | r in st.sems && r != s ensures Woken(st', r) == Woken(st, r) {}
    forall t ensures t in Woken(st', s) <==> t in Woken(st, s) && t != st.current {}
  }

  /** The thread about to test a semaphore is in no queue. */
  lemma NotQueued(st: State, s: Sid)
    requires Placed(st) && Queued(st) && OnCpu(st) && s in st.sems
    requires st.cpu.On? || (st.cpu.Retest? && st.place[st.current] == InP(s))
    ensures st.current !in st.sems[s].queue
  {
  }

  lemma VIdleKeeps(st: State, s: Sid)
    requires Inv(st) && s in st.sems && (st.cpu.On? || st.cpu.Asleep?) && st.sems[s].queue == []
    ensures DoV(st, s).Next? && Inv(DoV(st, s).state)
  {
    var st' := DoV(st, s).state;
    forall r | r in st.sems ensures Woken(st', r) == Woken(st, r) {}
  }

  lemma VWakesShape(st: State, s: Sid)
    requires Inv(st) && s in st.sems && (st.cpu.On? || st.cpu.Asleep?) && st.sems[s].queue != []
    ensures DoV(st, s).Next?
    ensures var st' := DoV(st, s).state;
            Placed(st') && OnCpu(st') && Buried(st') && Labelled(st')
  {
    var t := WokenIs(st, s);
    DistinctAppend(st.ready, t);
    var st' := DoV(st, s).state;
    hide Counted, Queued, Distinct, DoV;
    assert forall u :: u in st'.ready <==> u in st.ready || u == t;
    VWakesPlaced(st, s, t, st');
    VWakesLabels(st, s, t, st');
    hide Placed, Labelled;
  }

  lemma VWakesPlaced(st: State, s: Sid, t: Tid, st': State)
    requires Placed(st) && OnCpu(st) && (st.cpu.On? || st.cpu.Asleep?)
    requires s in st.sems && st.sems[s].queue != [] && Wakes(st, s, t, st')
    requires t in st.place && st.place[t] == InP(s) && Distinct(st'.ready)
    ensures Placed(st') && OnCpu(st')
  {
    hide Distinct;
  }

  lemma VWakesLabels(st: State, s: Sid, t: Tid, st': State)
    requires Placed(st) && OnCpu(st) && Labelled(st) && (st.cpu.On? || st.cpu.Asleep?)
    requires s in st.sems && st.sems[s].queue != [] && Wakes(st, s, t, st')
    requires t in st.place && st.place[t] == InP(s)
    ensures Labelled(st')
  {
    hide Distinct;
  }

  /** What V does to a semaphore with a queue. */
  ghost predicate Wakes(st: State, s: Sid, t: Tid, st': State)
    requires s in st.sems && st.sems[s].queue != []
  {
    var sem := st.sems[s];
    && t == sem.queue[0]
    && st' == st.(status := st.status[t := Ready], ready := st.ready + [t], sems := st'.sems)
    && st'.sems == st.sems[s := sem.(queue := sem.queue[1..], value := sem.value + 1, ups := sem.ups + 1)]
  }

  lemma WokenIs(st: State, s: Sid) returns (t: Tid)
    requires Queued(st) && s in st.sems && st.sems[s].queue != []
    ensures t in st.place && st.place[t] == InP(s) && t !in st.ready
    ensures DoV(st, s).Next? && Wakes(st, s, t, DoV(st, s).state)
  {
    t := st.sems[s].queue[0];
    assert t in st.sems[s].queue;
    hide Queued;
  }

  lemma PopFront(queue: seq<Tid>)
    requires Distinct(queue) && queue != []
    ensures Distinct(queue[1..]) && forall t :: t in queue[1..] <==> t in queue && t != queue[0]
  {
    assert queue == [queue[0]] + queue[1..];
  }

  lemma VWakesQueue(st: State, s: Sid)
    requires Placed(st) && Queued(st) && s in st.sems && st.sems[s].queue != []
    ensures DoV(st, s).Next? && Queued(DoV(st, s).state)
  {
    var t := WokenIs(st, s);
    PopFront(st.sems[s].queue);
    hide Distinct, DoV, Placed;
  }

  lemma VWakesCount(st: State, s: Sid)
    requires Inv(st) && s in st.sems && st.sems[s].queue != []
    ensures DoV(st, s).Next? && Counted(DoV(st, s).state)
  {
    var t := WokenIs(st, s);
    PopFront(st.sems[s].queue);
    hide Labelled, Buried, Placed, Queued, OnCpu, Distinct, DoV;
    var st' := DoV(st, s).state;
    forall r | r in st.sems && r != s ensures Woken(st', r) == Woken(st, r) {}
    CardAdd(Woken(st, s), Woken(st', s), t);
  }

  lemma YieldKeeps(st: State)
    requires Inv(st) && st.cpu.On?
    ensures Step(st, Yield).Next? && Inv(Step(st, Yield).state)
  {
    if st.ready != [] {
      YieldShape(st);
      YieldQueue(st);
      hide Placed, Queued, OnCpu, Buried, Labelled, Counted;
      SameCount(st, Step(st, Yield).state);
    }
  }

  lemma YieldReady(st: State)
    requires Placed(st) && OnCpu(st) && st.cpu.On? && st.ready != []
    ensures Step(st, Yield).Next?
    ensures var st' := Step(st, Yield).state;
            && Distinct(st'.ready)
            && forall t :: t in st'.ready <==> t == st.current || (t in st.ready && t != st.ready[0])
  {
    assert st.ready == [st.ready[0]] + st.ready[1..];
    DistinctAppend(st.ready[1..], st.current);
  }

  lemma YieldShape(st: State)
    requires Inv(st) && st.cpu.On? && st.ready != []
    ensures Step(st, Yield).Next?
    ensures var st' := Step(st, Yield).state; Placed(st') && OnCpu(st') && Buried(st') && Labelled(st')
  {
    YieldReady(st);
    YieldLabels(st);
    hide Counted, Queued, Labelled, Distinct;
  }

  lemma YieldLabels(st: State)
    requires Placed(st) && OnCpu(st) && Labelled(st) && st.cpu.On? && st.ready != []
    ensures Step(st, Yield).Next? && Labelled(Step(st, Yield).state)
  {
    YieldReady(st);
    hide Distinct;
  }

  lemma YieldQueue(st: State)
    requires Inv(st) && st.cpu.On? && st.ready != [] && Step(st, Yield).Next?
    ensures Queued(Step(st, Yield).state)
  {
    hide Counted, Buried, Labelled;
    YieldReady(st);
    hide Distinct;
  }

  lemma FinishKeeps(st: State)
    requires Inv(st) && st.cpu.On?
    ensures Inv(Step(st, Finish).state)
  {
    FinishShape(st);
    FinishQueue(st);
    SameCount(st, Step(st, Finish).state);
  }

  lemma FinishShape(st: State)
    requires Inv(st) && st.cpu.On?
    ensures var st' := Step(st, Finish).state; Placed(st') && OnCpu(st') && Buried(st') && Labelled(st')
  {
    hide Counted, Queued, Distinct;
  }

  lemma FinishQueue(st: State)
    requires Inv(st) && st.cpu.On?
    ensures Queued(Step(st, Finish).state)
  {
    hide Counted, Buried, Labelled, Distinct;
  }

  lemma DispatchShape(st: State)
    requires Inv(st) && st.cpu.Asleep? && st.ready != []
    ensures Step(st, Dispatch).Next?
    ensures var st' := Step(st, Dispatch).state; Placed(st') && OnCpu(st')
  {
    hide Counted, Buried;
    PopFront(st.ready);
    hide Distinct;
  }

  lemma DispatchLabels(st: State)
    requires Placed(st) && OnCpu(st) && Labelled(st) && st.cpu.Asleep? && st.ready != [] && Step(st, Dispatch).Next?
    ensures Labelled(Step(st, Dispatch).state)
  {
    PopFront(st.ready);
    hide Distinct;
  }

  lemma DispatchBuries(st: State)
    requires Inv(st) && st.cpu.Asleep? && st.ready != [] && Step(st, Dispatch).Next?
    ensures Buried(Step(st, Dispatch).state)
  {
    hide Counted, Labelled, Queued;
  }

  lemma DispatchQueue(st: State)
    requires Inv(st) && st.cpu.Asleep? && st.ready != [] && Step(st, Dispatch).Next?
    ensures Queued(Step(st, Dispatch).state)
  {
    hide Counted, Buried, Labelled;
    PopFront(st.ready);
    hide Distinct;
  }

  lemma DispatchKeeps(st: State)
    requires Inv(st) && st.cpu.Asleep? && st.ready != []
    ensures Step(st, Dispatch).Next? && Inv(Step(st, Dispatch).state)
  {
    DispatchShape(st);
    DispatchLabels(st);
    DispatchBuries(st);
    DispatchQueue(st);
    hide Placed, Queued, OnCpu, Buried, Labelled, Counted;
    SameCount(st, Step(st, Dispatch).state);
  }

  lemma CleanupShape(st: State)
    requires Inv(st) && st.cpu.Resumed?
    ensures Step(st, Cleanup).Next?
    ensures var st' := Step(st, Cleanup).state;
            Placed(st') && OnCpu(st') && Buried(st') && Labelled(st')
  {
    hide Counted, Queued, Distinct;
  }

  lemma CleanupQueue(st: State)
    requires Inv(st) && st.cpu.Resumed? && Step(st, Cleanup).Next?
    ensures Queued(Step(st, Cleanup).state)
  {
    hide Counted, Labelled, Distinct;
  }

  lemma CleanupKeeps(st: State)
    requires Inv(st) && st.cpu.Resumed?
    ensures Step(st, Cleanup).Next? && Inv(Step(st, Cleanup).state)
  {
    CleanupShape(st);
    CleanupQueue(st);
    hide Queued, Labelled, Counted, Distinct;
    SameCount(st, Step(st, Cleanup).state);
  }

  lemma TestKeeps(st: State, s: Sid)
    requires Inv(st) && s in st.sems
    requires st.cpu.On? || (st.cpu.Retest? && st.place[st.current] == InP(s))
    ensures TestP(st, s).Next? && Inv(TestP(st, s).state)
  {
    if st.sems[s].value == 0 {
      TestSleepsShape(st, s);
      TestSleepsQueue(st, s);
      TestSleepsCount(st, s);
    } else {
      TestTakesShape(st, s);
      TestTakesQueue(st, s);
      TestTakesCount(st, s);
    }
  }

  lemma VKeeps(st: State, s: Sid)
    requires Inv(st) && s in st.sems && (st.cpu.On? || st.cpu.Asleep?)
    ensures DoV(st, s).Next? && Inv(DoV(st, s).state)
  {
    if st.sems[s].queue == [] {
      VIdleKeeps(st, s);
    } else {
      VWakesShape(st, s);
      VWakesQueue(st, s);
      VWakesCount(st, s);
    }
  }

  /** Every step keeps the invariant, and no ASSERT on these paths can fail. */
  lemma StepKeeps(st: State, e: Event)
    requires Inv(st)
    ensures !Step(st, e).AssertFails?
    ensures Step(st, e).Next? ==> Inv(Step(st, e).state)
  {
    if !Step(st, e).Disabled? {
      match e
      case NewThread(t) => NewThreadKeeps(st, t);
      case Fork(t) => ForkKeeps(st, t);
      case NewSemaphore(s, v) => NewSemaphoreKeeps(st, s, v);
      case P(s) => TestKeeps(st, s);
      case V(s) => VKeeps(st, s);
      case HandlerV(s) => VKeeps(st, s);
      case Yield => YieldKeeps(st);
      case Finish => FinishKeeps(st);
      case Dispatch => DispatchKeeps(st);
      case Cleanup => CleanupKeeps(st);
      case TestAgain => TestKeeps(st, st.place[st.current].sem);
    }
  }

  /** No run from boot can fail an ASSERT, and every state it reaches is sound. */
  lemma {:induction false} RunKeeps(st: State, run: seq<Event>)
    requires Inv(st)
    ensures !Exec(st, run).AssertFails?
    ensures Exec(st, run).Next? ==> Inv(Exec(st, run).state)
  {
    if run == [] {
    } else {
      RunKeeps(st, run[..|run| - 1]);
      if Exec(st, run[..|run| - 1]).Next? {
        StepKeeps(Exec(st, run[..|run| - 1]).state, run[|run| - 1]);
      }
    }
  }
}
