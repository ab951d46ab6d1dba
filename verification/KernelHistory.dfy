/** What the events of a run say about the threads: who has been created, started and finished, what every call of P
    came to, and in what order sleepers were woken (threads/thread.cc, threads/synch.cc). */
module KernelHistory {
  import opened Base
  import opened Kernel
  import opened KernelProofs
  import opened KernelTheorems

  // ----- created, forked, finished -----

  ghost predicate WasDeleted(st: State, t: Tid) {
    exists i :: 0 <= i < |st.deleted| && st.deleted[i].0 == t
  }

  ghost predicate Known(st: State, t: Tid) { t in st.place || WasDeleted(st, t) }

  ghost predicate Started(st: State, t: Tid) { (t in st.place && !st.place[t].New?) || WasDeleted(st, t) }

  ghost predicate Ended(st: State, t: Tid) { (t in st.place && st.place[t].Finished?) || WasDeleted(st, t) }

  /** The threads that were running when a Finish event came. */
  ghost function Finishers(st: State, run: seq<Event>): set<Tid> {
    if run == [] then {}
    else
      var before := Exec(st, run[..|run| - 1]);
      Finishers(st, run[..|run| - 1])
      + if before.Next? && run[|run| - 1].Finish? then {before.state.current} else {}
  }

  /** What one event adds. */
  ghost predicate Adds(st: State, e: Event, st': State, t: Tid) {
    && (Known(st', t) <==> Known(st, t) || e == NewThread(t))
    && (Started(st', t) <==> Started(st, t) || e == Fork(t))
    && (Ended(st', t) <==> Ended(st, t) || (e.Finish? && t == st.current))
  }

  lemma SameDeleted(st: State, st': State, t: Tid)
    requires st'.deleted == st.deleted
    ensures WasDeleted(st', t) <==> WasDeleted(st, t)
  {
  }

  lemma TestAdds(st: State, s: Sid, t: Tid)
    requires Inv(st) && s in st.sems && TestP(st, s).Next? && (st.cpu.On? || st.cpu.Retest?)
    ensures var st' := TestP(st, s).state;
            && (Known(st', t) <==> Known(st, t)) && (Started(st', t) <==> Started(st, t))
            && (Ended(st', t) <==> Ended(st, t))
  {
    hide Queued, Buried, Counted, Labelled, WasDeleted;
    SameDeleted(st, TestP(st, s).state, t);
  }

  lemma VAdds(st: State, s: Sid, t: Tid)
    requires s in st.sems && DoV(st, s).Next?
    ensures var st' := DoV(st, s).state;
            && (Known(st', t) <==> Known(st, t)) && (Started(st', t) <==> Started(st, t))
            && (Ended(st', t) <==> Ended(st, t))
  {
    hide WasDeleted;
    SameDeleted(st, DoV(st, s).state, t);
  }

  lemma CleanupAdds(st: State, t: Tid)
    requires Inv(st) && DoCleanup(st).Next?
    ensures var st' := DoCleanup(st).state;
            && (Known(st', t) <==> Known(st, t)) && (Started(st', t) <==> Started(st, t))
            && (Ended(st', t) <==> Ended(st, t))
  {
    hide Queued, Counted, Labelled, Placed, OnCpu;
    var st' := DoCleanup(st).state;
    if st.toBeDestroyed.Some? {
      var dead := st.toBeDestroyed.value;
      assert st'.deleted[|st.deleted|].0 == dead;
      assert WasDeleted(st', t) <==> WasDeleted(st, t) || t == dead by {
        assert forall i :: 0 <= i < |st.deleted| ==> st'.deleted[i] == st.deleted[i];
      }
    } else {
      SameDeleted(st, st', t);
    }
    hide WasDeleted;
  }

  lemma StepAdds(st: State, e: Event, t: Tid)
    requires Inv(st) && Step(st, e).Next?
    ensures Adds(st, e, Step(st, e).state, t)
  {
    match e
    case P(s) => TestAdds(st, s, t);
    case TestAgain => TestAdds(st, st.place[st.current].sem, t);
    case V(s) => VAdds(st, s, t);
    case HandlerV(s) => VAdds(st, s, t);
    case Cleanup => CleanupAdds(st, t);
    case NewThread(_) | Fork(_) | NewSemaphore(_, _) | Yield | Finish | Dispatch => RestAdds(st, e, t);
  }

  lemma RestAdds(st: State, e: Event, t: Tid)
    requires Inv(st) && Step(st, e).Next?
    requires !e.P? && !e.TestAgain? && !e.V? && !e.HandlerV? && !e.Cleanup?
    ensures Adds(st, e, Step(st, e).state, t)
  {
    hide Queued, Counted, Labelled, WasDeleted, Distinct;
    SameDeleted(st, Step(st, e).state, t);
  }

  lemma FinishersOne(st: State, run: seq<Event>, e: Event, mid: State)
    requires Exec(st, run) == Next(mid)
    ensures Finishers(st, run + [e]) == Finishers(st, run) + if e.Finish? then {mid.current} else {}
  {
    assert (run + [e])[..|run|] == run;
  }

  lemma BootHistory(main: Tid, t: Tid)
    ensures (Known(Boot(main), t) <==> t == main) && (Started(Boot(main), t) <==> t == main) && !Ended(Boot(main), t)
  {
  }

  /** In every run from boot: the threads known are those created, those started are exactly those forked, and those
      that have ended, deleted or about to be, are exactly those that were running at a Finish.  In particular a forked
      thread is never again, or still, waiting to be forked. */
  lemma {:induction false} Population(main: Tid, run: seq<Event>, st: State, t: Tid)
    requires Exec(Boot(main), run) == Next(st)
    ensures Known(st, t) <==> t == main || NewThread(t) in run
    ensures Started(st, t) <==> t == main || Fork(t) in run
    ensures Ended(st, t) <==> t in Finishers(Boot(main), run)
  {
    hide Known, Started, Ended, Step;
    if run == [] {
      BootHistory(main, t);
    } else {
      var (front, e) := (run[..|run| - 1], run[|run| - 1]);
      var mid := Exec(Boot(main), front).state;
      assert run == front + [e];
      Population(main, front, mid, t);
      assert Inv(mid) by { BootInv(main); RunKeeps(Boot(main), front); }
      hide Inv, Boot, Finishers;
      StepAdds(mid, e, t);
      FinishersOne(Boot(main), front, e, mid);
    }
  }

  // ----- a forked thread gets to run -----

  /** Fork puts the thread at the end of the ready list and touches nobody else. */
  lemma ForkQueues(st: State, t: Tid)
    requires Step(st, Fork(t)).Next?
    ensures var st' := Step(st, Fork(t)).state;
            && st'.ready == st.ready + [t] && t in st'.status && st'.status[t].Ready?
            && t in st'.place && st'.place[t].Code?
            && st'.current == st.current && st'.sems == st.sems && st'.cpu == st.cpu
            && (forall u :: u != t ==> (u in st'.place <==> u in st.place))
            && (forall u :: u != t && u in st.place ==> st'.place[u] == st.place[u])
  {
  }

  /** So it has run once the threads ahead of it have been dispatched, and one more. */
  lemma ForkedRuns(st: State, t: Tid, more: seq<Event>)
    requires Step(st, Fork(t)).Next? && Exec(Step(st, Fork(t)).state, more).Next?
    requires Dispatches(Step(st, Fork(t)).state, more) >= |st.ready| + 1
    ensures Ran(Step(st, Fork(t)).state, more, t)
  {
    ForkQueues(st, t);
    hide Step, Exec, Ran, Dispatches;
    DispatchedWithin(Step(st, Fork(t)).state, more, |st.ready|);
  }

  // ----- every call of P takes a unit, or is still waiting -----

  /** How often thread t has called P on s. */
  ghost function Calls(st: State, run: seq<Event>, t: Tid, s: Sid): nat {
    if run == [] then 0
    else
      var before := Exec(st, run[..|run| - 1]);
      Calls(st, run[..|run| - 1], t, s)
      + if before.Next? && run[|run| - 1] == P(s) && before.state.current == t then 1 else 0
  }

  function Taken(labels: seq<Label>, t: Tid, s: Sid): nat {
    if labels == [] then 0
    else Taken(labels[..|labels| - 1], t, s) + if labels[|labels| - 1] == Take(t, s) then 1 else 0
  }

  function Inside(st: State, t: Tid, s: Sid): nat { if t in st.place && st.place[t] == InP(s) then 1 else 0 }

  lemma TestPasses(st: State, s: Sid, t: Tid, r: Sid)
    requires s in st.sems && TestP(st, s).Next? && st.current in st.place
    requires st.place[st.current].Code? || st.place[st.current] == InP(s)
    ensures Inside(TestP(st, s).state, t, r) + (if t == st.current && r == s && st.sems[s].value != 0 then 1 else 0)
         == if t == st.current && r == s then 1 else Inside(st, t, r)
  {
  }

  lemma OthersStay(st: State, e: Event, t: Tid, s: Sid)
    requires Inv(st) && Step(st, e).Next? && !e.P? && !e.TestAgain?
    ensures Inside(Step(st, e).state, t, s) == Inside(st, t, s)
  {
    hide Queued, Counted, Labelled, Distinct;
  }

  lemma StepPasses(st: State, e: Event, t: Tid, s: Sid)
    requires Inv(st) && Step(st, e).Next?
    ensures Inside(st, t, s) + (if e == P(s) && t == st.current then 1 else 0)
         == Inside(Step(st, e).state, t, s) + if LabelOf(st, e) == Take(t, s) then 1 else 0
  {
    if e.P? || e.TestAgain? {
      Tester(st, e);
      var r := if e.P? then e.s else st.place[st.current].sem;
      hide Inv, TestP, Inside;
      TestPasses(st, r, t, s);
      InsideIs(st, t, s);
    } else {
      OthersStay(st, e, t, s);
      hide Inv, Step;
    }
  }

  lemma InsideIs(st: State, t: Tid, s: Sid)
    ensures Inside(st, t, s) == if t in st.place && st.place[t] == InP(s) then 1 else 0
  {
  }

  /** The thread that tests a semaphore is in no P, or in that one. */
  lemma Tester(st: State, e: Event)
    requires Inv(st) && Step(st, e).Next? && (e.P? || e.TestAgain?)
    ensures st.current in st.place && (if e.P? then st.place[st.current].Code? && e.s in st.sems
                                       else st.place[st.current].InP? && st.place[st.current].sem in st.sems)
  {
    hide Queued, Counted, Labelled, Buried, TestP;
  }

  lemma TakenOne(labels: seq<Label>, l: Label, t: Tid, s: Sid)
    ensures Taken(labels + [l], t, s) == Taken(labels, t, s) + if l == Take(t, s) then 1 else 0
  {
    assert (labels + [l])[..|labels|] == labels;
  }

  /** Over every run from boot: each call of P by each thread has taken a unit, or is the one call the thread is in. */
  lemma {:induction false} CallsTake(main: Tid, run: seq<Event>, st: State, t: Tid, s: Sid)
    requires Exec(Boot(main), run) == Next(st)
    ensures Calls(Boot(main), run, t, s) == Taken(Labels(Boot(main), run), t, s) + Inside(st, t, s)
  {
    hide Step, LabelOf;
    if run == [] {
    } else {
      var (front, e) := (run[..|run| - 1], run[|run| - 1]);
      var mid := Exec(Boot(main), front).state;
      CallsTake(main, front, mid, t, s);
      assert Inv(mid) by { BootInv(main); RunKeeps(Boot(main), front); }
      hide Inv, Boot, Inside;
      StepPasses(mid, e, t, s);
      TakenOne(Labels(Boot(main), front), LabelOf(mid, e), t, s);
    }
  }

  // ----- sleepers are woken in the order they went to sleep -----

  function QueueOf(st: State, s: Sid): seq<Tid> { if s in st.sems then st.sems[s].queue else [] }

  /** Who goes to sleep on s at this event. */
  function FallsAsleep(st: State, e: Event, s: Sid): seq<Tid> {
    if s !in st.sems || st.sems[s].value != 0 then []
    else if e == P(s) || (e.TestAgain? && st.current in st.place && st.place[st.current] == InP(s)) then [st.current]
    else []
  }

  /** Whom a V on s makes ready. */
  function Rouses(st: State, e: Event, s: Sid, st': State): seq<Tid> {
    if (e == V(s) || e == HandlerV(s)) && |st.ready| <= |st'.ready| then st'.ready[|st.ready|..] else []
  }

  function Slept(st: State, run: seq<Event>, s: Sid): seq<Tid> {
    if run == [] then []
    else
      var before := Exec(st, run[..|run| - 1]);
      Slept(st, run[..|run| - 1], s) + if before.Next? then FallsAsleep(before.state, run[|run| - 1], s) else []
  }

  function Roused(st: State, run: seq<Event>, s: Sid): seq<Tid> {
    if run == [] then []
    else
      var before := Exec(st, run[..|run| - 1]);
      Roused(st, run[..|run| - 1], s)
      + if before.Next? && Exec(st, run).Next? then Rouses(before.state, run[|run| - 1], s, Exec(st, run).state) else []
  }

  lemma QueueMoves(st: State, e: Event, s: Sid)
    requires Step(st, e).Next?
    ensures var st' := Step(st, e).state;
            QueueOf(st, s) + FallsAsleep(st, e, s) == Rouses(st, e, s, st') + QueueOf(st', s)
  {
    match e
    case V(r) => VMoves(st, e, r, s);
    case HandlerV(r) => VMoves(st, e, r, s);
    case P(_) | TestAgain | NewThread(_) | Fork(_) | NewSemaphore(_, _) | Yield | Finish | Dispatch | Cleanup =>
      hide DoV;
  }

  lemma VMoves(st: State, e: Event, r: Sid, s: Sid)
    requires r in st.sems && DoV(st, r).Next? && (e == V(r) || e == HandlerV(r))
    ensures var st' := DoV(st, r).state;
            QueueOf(st, s) + FallsAsleep(st, e, s) == Rouses(st, e, s, st') + QueueOf(st', s)
  {
    if r == s && st.sems[s].queue != [] {
      var st' := DoV(st, s).state;
      assert st'.ready == st.ready + [st.sems[s].queue[0]];
      assert st'.ready[|st.ready|..] == [st.sems[s].queue[0]];
      assert st.sems[s].queue == [st.sems[s].queue[0]] + st.sems[s].queue[1..];
    }
  }

  /** Over every run from boot: the threads that went to sleep on a semaphore, in that order, are those its Vs have made
      ready, in that order, followed by those still queued. */
  lemma {:induction false} SleepersInOrder(main: Tid, run: seq<Event>, st: State, s: Sid)
    requires Exec(Boot(main), run) == Next(st)
    ensures Slept(Boot(main), run, s) == Roused(Boot(main), run, s) + QueueOf(st, s)
  {
    if run == [] {
    } else {
      hide Step, FallsAsleep, Rouses, QueueOf, Boot;
      var (front, e) := (run[..|run| - 1], run[|run| - 1]);
      var mid := Exec(Boot(main), front).state;
      SleepersInOrder(main, front, mid, s);
      QueueMoves(mid, e, s);
      Carry(Slept(Boot(main), front, s), Roused(Boot(main), front, s), QueueOf(mid, s),
            FallsAsleep(mid, e, s), Rouses(mid, e, s, st), QueueOf(st, s));
    }
  }
}
