/** Consequences of the kernel invariant, stated for every run from boot. */
module KernelTheorems {
  import opened Base
  import opened Kernel
  import opened KernelProofs

  ghost predicate Reachable(st: State) {
    exists main: Tid, run: seq<Event> :: Exec(Boot(main), run) == Next(st)
  }

  lemma ReachableInv(st: State)
    requires Reachable(st)
    ensures Inv(st)
  {
    var main: Tid, run: seq<Event> :| Exec(Boot(main), run) == Next(st);
    BootInv(main);
    RunKeeps(Boot(main), run);
  }

  /** No ASSERT of the scheduler, of Thread::Finish, of ~Thread or of List::Append
      on a ready list or a semaphore queue fails, whatever happens next. */
  lemma NoAssertFails(st: State, e: Event)
    requires Reachable(st)
    ensures !Step(st, e).AssertFails?
  {
    ReachableInv(st);
    StepKeeps(st, e);
  }

  /** A thread is in at most one place: never twice in the ready list or in a
      queue, never in two of these lists. */
  lemma OnePlace(st: State, t: Tid, s: Sid, s': Sid)
    requires Reachable(st) && s in st.sems && s' in st.sems
    ensures Distinct(st.ready) && Distinct(st.sems[s].queue)
    ensures t in st.sems[s].queue ==> t !in st.ready
    ensures t in st.sems[s].queue && t in st.sems[s'].queue ==> s == s'
    ensures t in st.sems[s].queue ==> t in st.status && st.status[t] != Ready
  {
    ReachableInv(st);
  }

  /** While a thread runs nothing is waiting to be destroyed, so a finishing
      thread always finds `toBeDestroyed` empty; a thread is deleted at most
      once, by another thread, and is not in the system afterwards. */
  lemma DestroyedOnce(st: State)
    requires Reachable(st)
    ensures !st.cpu.Resumed? ==> st.toBeDestroyed.None?
    ensures forall i :: 0 <= i < |st.deleted| ==>
                          st.deleted[i].0 != st.deleted[i].1 && st.deleted[i].0 !in st.place
    ensures forall i, j :: 0 <= i < j < |st.deleted| ==> st.deleted[i].0 != st.deleted[j].0
  {
    ReachableInv(st);
  }

  /** Semaphore safety. */
  lemma SemaphoreSafety(st: State, s: Sid)
    requires Reachable(st) && s in st.sems
    ensures st.sems[s].value >= 0
    ensures st.sems[s].value == st.sems[s].initial + st.sems[s].ups - st.sems[s].downs
    ensures st.sems[s].queue != [] ==> st.sems[s].value <= |Woken(st, s)|
  {
    ReachableInv(st);
  }

  /** No lost wake-up: a positive value with threads still queued means some
      thread has been woken for it, and that thread is in the ready list or is
      the current thread on its way back to the test. */
  lemma NoLostWakeup(st: State, s: Sid) returns (t: Tid)
    requires Reachable(st) && s in st.sems && st.sems[s].queue != [] && st.sems[s].value > 0
    ensures t in st.place && st.place[t] == InP(s) && t !in st.sems[s].queue
    ensures t in st.ready || (t == st.current && (st.cpu.Resumed? || st.cpu.Retest?))
  {
    ReachableInv(st);
    assert Woken(st, s) != {};
    t :| t in Woken(st, s);
  }

  // ----- the kernel implements textbook semaphores -----

  /** What a step does as seen by the users of semaphores. */
  datatype Label = Take(taker: Tid, sem: Sid) | Give(sem: Sid) | Make(sem: Sid, initial: int) | Silent

  function LabelOf(st: State, e: Event): Label {
    match e
    case P(s) =>
      if s in st.sems && st.sems[s].value != 0 then Take(st.current, s) else Silent
    case TestAgain =>
      if st.current in st.place && st.place[st.current].InP?
         && st.place[st.current].sem in st.sems && st.sems[st.place[st.current].sem].value != 0
      then Take(st.current, st.place[st.current].sem) else Silent
    case V(s) => Give(s)
    case HandlerV(s) => Give(s)
    case NewSemaphore(s, v) => Make(s, v)
    case _ => Silent
  }

  /** A textbook semaphore: a natural number, P indivisibly takes one when there
      is one, V indivisibly adds one. */
  ghost predicate Textbook(before: map<Sid, int>, l: Label, after: map<Sid, int>) {
    match l
    case Take(_, s) => s in before && before[s] > 0 && after == before[s := before[s] - 1]
    case Give(s) => s in before && after == before[s := before[s] + 1]
    case Make(s, v) => s !in before && v >= 0 && after == before[s := v]
    case Silent => after == before
  }

  function Values(st: State): map<Sid, int> {
    map s | s in st.sems :: st.sems[s].value
  }

  lemma TestRefines(st: State, s: Sid)
    requires s in st.sems && st.sems[s].value >= 0 && TestP(st, s).Next?
    ensures Textbook(Values(st), if st.sems[s].value != 0 then Take(st.current, s) else Silent,
                     Values(TestP(st, s).state))
  {
    if st.sems[s].value != 0 {
      assert Values(TestP(st, s).state) == Values(st)[s := st.sems[s].value - 1];
    } else {
      assert Values(TestP(st, s).state) == Values(st);
    }
  }

  lemma VRefines(st: State, s: Sid)
    requires s in st.sems && DoV(st, s).Next?
    ensures Textbook(Values(st), Give(s), Values(DoV(st, s).state))
  {
    assert Values(DoV(st, s).state) == Values(st)[s := st.sems[s].value + 1];
  }

  /** Every step of the kernel is a step of textbook semaphores. */
  lemma RefinesTextbook(st: State, e: Event)
    requires Reachable(st) && Step(st, e).Next?
    ensures Textbook(Values(st), LabelOf(st, e), Values(Step(st, e).state))
  {
    assert Counted(st) by { ReachableInv(st); }
    hide TestP, DoV, Textbook, Values, Reachable;
    match e
    case P(s) => TestRefines(st, s);
    case TestAgain => TestRefines(st, st.place[st.current].sem);
    case V(s) => VRefines(st, s);
    case HandlerV(s) => VRefines(st, s);
    case NewThread(_) | Fork(_) | NewSemaphore(_, _) | Yield | Finish | Dispatch | Cleanup => OthersRefine(st, e);
  }

  lemma OthersRefine(st: State, e: Event)
    requires Step(st, e).Next? && !e.P? && !e.TestAgain? && !e.V? && !e.HandlerV?
    ensures Textbook(Values(st), LabelOf(st, e), Values(Step(st, e).state))
  {
    if e.NewSemaphore? {
      assert Values(Step(st, e).state) == Values(st)[e.s := e.initial];
    } else {
      assert Step(st, e).state.sems == st.sems;
    }
  }

  /** The labels of a run. */
  function Labels(st: State, run: seq<Event>): seq<Label> {
    if run == [] then []
    else
      var front := run[..|run| - 1];
      var before := Exec(st, front);
      Labels(st, front) + if before.Next? then [LabelOf(before.state, run[|run| - 1])] else []
  }

  /** Textbook semaphores perform the labels one after another, passing through these values. */
  ghost predicate IsTrace(values: seq<map<Sid, int>>, labels: seq<Label>) {
    && |values| == |labels| + 1
    && forall i :: 0 <= i < |labels| ==> Textbook(values[i], labels[i], values[i + 1])
  }

  lemma TraceOne(values: seq<map<Sid, int>>, labels: seq<Label>, l: Label, after: map<Sid, int>)
    requires IsTrace(values, labels) && Textbook(values[|labels|], l, after)
    ensures IsTrace(values + [after], labels + [l])
  {
    hide Textbook;
  }

  /** Every run of the kernel is a run of textbook semaphores. */
  lemma {:induction false} RunRefinesTextbook(main: Tid, run: seq<Event>, st: State)
    returns (values: seq<map<Sid, int>>)
    requires Exec(Boot(main), run) == Next(st)
    ensures IsTrace(values, Labels(Boot(main), run)) && values[0] == map[] && values[|values| - 1] == Values(st)
  {
    if run == [] {
      values := [Values(st)];
    } else {
      var (front, last) := (run[..|run| - 1], run[|run| - 1]);
      var mid := Exec(Boot(main), front).state;
      var earlier := RunRefinesTextbook(main, front, mid);
      assert Reachable(mid);
      hide Step, Exec, Values, Textbook, LabelOf;
      RefinesTextbook(mid, last);
      TraceOne(earlier, Labels(Boot(main), front), LabelOf(mid, last), Values(st));
      values := earlier + [Values(st)];
    }
  }

  lemma LeavesOnlyThen(st: State, e: Event, t: Tid)
    requires Placed(st) && OnCpu(st) && Buried(st) && Step(st, e).Next? && t in st.place && st.place[t].InP?
    ensures t in Step(st, e).state.place
    ensures !Step(st, e).state.place[t].InP? ==> LabelOf(st, e) == Take(t, st.place[t].sem)
  {
  }

  /** A thread leaves the loop of P only by taking a unit. */
  lemma LeavesByTaking(st: State, e: Event, t: Tid)
    requires Reachable(st) && Step(st, e).Next? && t in st.place && st.place[t].InP?
    ensures t in Step(st, e).state.place
    ensures !Step(st, e).state.place[t].InP? ==> LabelOf(st, e) == Take(t, st.place[t].sem)
  {
    assert Placed(st) && OnCpu(st) && Buried(st) by { ReachableInv(st); }
    hide *;
    LeavesOnlyThen(st, e, t);
  }

  // ----- the ready list is first in, first out -----

  /** The events that take the front of the ready list and run it. */
  predicate Switches(st: State, e: Event) {
    st.ready != [] && ((e.Dispatch? && st.cpu.Asleep?) || (e.Yield? && st.cpu.On?))
  }

  lemma SwitchTakesFront(st: State, e: Event)
    requires Step(st, e).Next?
    ensures var st' := Step(st, e).state;
            if Switches(st, e)
            then st'.current == st.ready[0] && st.ready[1..] <= st'.ready
            else st.ready <= st'.ready
  {
  }

  ghost function Dispatches(st: State, run: seq<Event>): nat {
    if run == [] then 0
    else
      var before := Exec(st, run[..|run| - 1]);
      Dispatches(st, run[..|run| - 1])
      + if before.Next? && Switches(before.state, run[|run| - 1]) then 1 else 0
  }

  /** Thread `t` was given the processor at some point of the run. */
  ghost predicate Ran(st: State, run: seq<Event>, t: Tid) {
    run != [] &&
    var before := Exec(st, run[..|run| - 1]);
    || Ran(st, run[..|run| - 1], t)
    || (before.Next? && Switches(before.state, run[|run| - 1]) && before.state.ready[0] == t)
  }

  lemma Moves(st: State, e: Event, j: nat)
    requires j < |st.ready| && Step(st, e).Next? && (Switches(st, e) ==> j > 0)
    ensures var ready', j' := Step(st, e).state.ready, if Switches(st, e) then j - 1 else j;
            j' < |ready'| && ready'[j'] == st.ready[j]
  {
    SwitchTakesFront(st, e);
    var ready' := Step(st, e).state.ready;
    if Switches(st, e) {
      assert st.ready[1..][j - 1] == st.ready[j];
    }
  }

  lemma LastStep(st: State, run: seq<Event>, t: Tid)
    requires run != [] && Exec(st, run).Next? && !Ran(st, run, t)
    ensures var (init, last) := (run[..|run| - 1], run[|run| - 1]);
      && Exec(st, init).Next? && Exec(st, run) == Step(Exec(st, init).state, last) && !Ran(st, init, t)
      && var mid := Exec(st, init).state;
         && Dispatches(st, run) == Dispatches(st, init) + (if Switches(mid, last) then 1 else 0)
         && (Switches(mid, last) ==> mid.ready != [] && mid.ready[0] != t)
  {
    hide Step;
  }

  lemma {:induction false} Advances(st: State, run: seq<Event>, k: nat)
    requires k < |st.ready| && Exec(st, run).Next? && !Ran(st, run, st.ready[k])
    ensures Dispatches(st, run) <= k
    ensures var ready' := Exec(st, run).state.ready;
            k - Dispatches(st, run) < |ready'| && ready'[k - Dispatches(st, run)] == st.ready[k]
  {
    hide *;
    if run == [] {
      NoSteps(st);
    } else {
      LastStep(st, run, st.ready[k]);
      var init := run[..|run| - 1];
      Advances(st, init, k);
      Moves(Exec(st, init).state, run[|run| - 1], k - Dispatches(st, init));
    }
  }

  lemma NoSteps(st: State)
    ensures Exec(st, []) == Next(st) && Dispatches(st, []) == 0
  {
  }

  /** A thread with k threads ahead of it runs within k + 1 dispatches. */
  lemma DispatchedWithin(st: State, run: seq<Event>, k: nat)
    requires k < |st.ready| && Exec(st, run).Next? && Dispatches(st, run) >= k + 1
    ensures Ran(st, run, st.ready[k])
  {
    if !Ran(st, run, st.ready[k]) {
      Advances(st, run, k);
    }
  }
}
