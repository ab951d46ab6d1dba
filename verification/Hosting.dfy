/** A program that uses semaphores, run by the kernel's threads: what the scheduler and Semaphore::P and V do to it
    (threads/scheduler.cc, threads/synch.cc). */
module Hosting {
  import opened Base
  import opened Kernel
  import opened KernelProofs

  /** What the kernel has to know of the program. */
  datatype View = View(
    mine: set<Sid>,          // its semaphores
    wants: map<Tid, Sid>,    // threads whose next statement is a P, and of which semaphore
    busy: set<Tid>)          // threads at any other statement of it

  /** The kernel has a program's threads where the program thinks they are: outside P, or in the P they are at. */
  ghost predicate Hosts(k: State, v: View) {
    && v.mine <= k.sems.Keys
    && (forall t :: t in v.wants ==>
                      && v.wants[t] in v.mine && t in k.place && t !in v.busy
                      && (k.place[t].Code? || k.place[t] == InP(v.wants[t])))
    && (forall t :: t in v.busy ==> t in k.place && k.place[t].Code?)
    && (forall t :: t in k.place && k.place[t].InP? && k.place[t].sem in v.mine ==>
                      t in v.wants && v.wants[t] == k.place[t].sem)
  }

  ghost predicate ValuesKept(k: State, k': State, rest: set<Sid>) {
    forall r :: r in rest ==> r in k.sems && r in k'.sems && k'.sems[r].value == k.sems[r].value
  }

  // ----- the program's own statements -----

  /** The current thread moves on inside the program. */
  ghost predicate Follows(v: View, v': View, t: Tid) {
    && v'.mine == v.mine
    && (forall u :: u != t ==> (u in v'.busy <==> u in v.busy))
    && (forall u :: u != t ==> (u in v'.wants <==> u in v.wants))
    && (forall u :: u != t && u in v.wants ==> v'.wants[u] == v.wants[u])
    && (t in v'.wants ==> v'.wants[t] in v'.mine && t !in v'.busy)
  }

  lemma MoveHosted(k: State, v: View, v': View, t: Tid)
    requires Hosts(k, v) && Follows(v, v', t) && t in k.place && k.place[t].Code?
    ensures Hosts(k, v')
  {
  }

  /** P, or its next turn after a wake-up: the thread takes a unit and moves on, or stays where it is, asleep. */
  lemma DownHosted(k: State, v: View, s: Sid)
    requires Inv(k) && Hosts(k, v) && k.current in v.wants && v.wants[k.current] == s
    requires k.cpu.On? || (k.cpu.Retest? && k.place[k.current] == InP(s))
    ensures s in k.sems && TestP(k, s).Next? && Inv(TestP(k, s).state)
    ensures var k' := TestP(k, s).state;
            && ValuesKept(k, k', v.mine - {s}) && s in k'.sems && k'.current == k.current
            && (k.sems[s].value == 0 ==> k'.sems[s].value == 0 && k'.cpu.Asleep? && Hosts(k', v))
            && (k.sems[s].value != 0 ==>
                  && k'.sems[s].value == k.sems[s].value - 1 > -1 && k'.cpu.On? && k'.current in k'.place
                  && k'.place[k'.current].Code? && Hosts(k', v.(wants := v.wants - {k.current})))
  {
    assert s in k.sems;
    TestKeeps(k, s);
    TestEffect(k, s);
    var k' := TestP(k, s).state;
    hide Inv, TestP, Hosts, ValuesKept;
    OthersKept(k, v, s, k');
    if k.sems[s].value == 0 {
      AsleepHosted(k, v, s, k');
    } else {
      TakenHosted(k, v, s, k');
    }
  }

  lemma TestEffect(k: State, s: Sid)
    requires Inv(k) && s in k.sems && TestP(k, s).Next?
    ensures k.current in k.place && k.sems[s].value >= 0
    ensures var k' := TestP(k, s).state;
            && k'.current == k.current && k'.sems.Keys == k.sems.Keys
            && (forall r :: r in k.sems && r != s ==> k'.sems[r] == k.sems[r])
            && (if k.sems[s].value == 0
                then k'.place == k.place[k.current := InP(s)] && k'.sems[s].value == 0 && k'.cpu.Asleep?
                else k'.place == k.place[k.current := Code] && k'.sems[s].value == k.sems[s].value - 1 && k'.cpu.On?)
  {
    hide Placed, Queued, OnCpu, Buried, Labelled, Distinct;
    assert k.current in k.place by { CurrentPlaced(k); }
  }

  lemma CurrentPlaced(k: State)
    requires Inv(k)
    ensures k.current in k.place && (k.cpu.On? ==> k.place[k.current].Code?)
  {
    hide Queued, Buried, Labelled, Counted, Distinct;
  }

  lemma AsleepHosted(k: State, v: View, s: Sid, k': State)
    requires Hosts(k, v) && k.current in v.wants && v.wants[k.current] == s
    requires k.current in k.place && k'.place == k.place[k.current := InP(s)] && k'.sems.Keys == k.sems.Keys
    ensures Hosts(k', v)
  {
  }

  lemma TakenHosted(k: State, v: View, s: Sid, k': State)
    requires Hosts(k, v) && k.current in v.wants && v.wants[k.current] == s
    requires k.current in k.place && k'.place == k.place[k.current := Code] && k'.sems.Keys == k.sems.Keys
    ensures Hosts(k', v.(wants := v.wants - {k.current}))
  {
  }

  /** V, by a thread or by an interrupt handler. */
  lemma UpHosted(k: State, v: View, s: Sid)
    requires Inv(k) && Hosts(k, v) && s in v.mine && (k.cpu.On? || k.cpu.Asleep?)
    ensures s in k.sems && DoV(k, s).Next? && Inv(DoV(k, s).state)
    ensures var k' := DoV(k, s).state;
            && ValuesKept(k, k', v.mine - {s}) && s in k'.sems && k'.sems[s].value == k.sems[s].value + 1
            && k'.current == k.current && k'.cpu == k.cpu && k'.place == k.place && Hosts(k', v)
  {
    assert s in k.sems;
    VKeeps(k, s);
    UpEffect(k, s);
    hide Inv, DoV, Hosts, ValuesKept;
    OthersKept(k, v, s, DoV(k, s).state);
    SameHosted(k, v, DoV(k, s).state);
  }

  lemma OthersKept(k: State, v: View, s: Sid, k': State)
    requires Hosts(k, v) && k'.sems.Keys == k.sems.Keys && forall r :: r in k.sems && r != s ==> k'.sems[r] == k.sems[r]
    ensures ValuesKept(k, k', v.mine - {s})
  {
  }

  lemma SameHosted(k: State, v: View, k': State)
    requires Hosts(k, v) && k'.place == k.place && k.sems.Keys <= k'.sems.Keys
    ensures Hosts(k', v)
  {
  }

  lemma UpEffect(k: State, s: Sid)
    requires s in k.sems && DoV(k, s).Next?
    ensures var k' := DoV(k, s).state;
            && k'.sems.Keys == k.sems.Keys && k'.sems[s].value == k.sems[s].value + 1
            && (forall r :: r in k.sems && r != s ==> k'.sems[r] == k.sems[r])
            && k'.current == k.current && k'.cpu == k.cpu && k'.place == k.place
  {
  }

  /** The program makes itself a new semaphore. */
  lemma NewHosted(k: State, v: View, s: Sid)
    requires Inv(k) && Hosts(k, v) && k.cpu.On? && s !in k.sems
    ensures var r := Step(k, NewSemaphore(s, 0)); r.Next? && Inv(r.state)
    ensures var k' := Step(k, NewSemaphore(s, 0)).state;
            && ValuesKept(k, k', v.mine) && s in k'.sems && k'.sems[s].value == 0
            && k'.current == k.current && k'.cpu == k.cpu && k'.place == k.place
            && Hosts(k', v.(mine := v.mine + {s}))
  {
    NewSemaphoreKeeps(k, s, 0);
    NobodyIn(k, s);
    hide Inv, Hosts, ValuesKept;
    MoreHosted(k, v, s, Step(k, NewSemaphore(s, 0)).state);
  }

  lemma MoreHosted(k: State, v: View, s: Sid, k': State)
    requires Hosts(k, v) && s !in k.sems && k'.place == k.place && k'.sems.Keys == k.sems.Keys + {s}
    requires forall r :: r in k.sems ==> k'.sems[r] == k.sems[r]
    requires forall t :: t in k.place && k.place[t].InP? ==> k.place[t].sem != s
    ensures ValuesKept(k, k', v.mine) && Hosts(k', v.(mine := v.mine + {s}))
  {
  }

  lemma NobodyIn(k: State, s: Sid)
    requires Inv(k) && s !in k.sems
    ensures forall t :: t in k.place && k.place[t].InP? ==> k.place[t].sem != s
  {
    hide Placed, OnCpu, Buried, Labelled, Counted, Distinct;
  }

  // ----- everything else the kernel does -----

  /** What may happen without the program: any switch, any interrupt handler and any thread that is not inside it, as
      long as its semaphores are left alone. */
  ghost predicate Elsewhere(k: State, v: View, e: Event) {
    match e
    case NewThread(_) | Fork(_) | NewSemaphore(_, _) | Finish => k.current !in v.busy && k.current !in v.wants
    case P(s) => k.current !in v.busy && k.current !in v.wants && s !in v.mine
    case V(s) => k.current !in v.busy && k.current !in v.wants && s !in v.mine
    case HandlerV(s) => s !in v.mine
    case Yield | Dispatch | Cleanup => true
    case TestAgain => k.current in k.place && k.place[k.current].InP? && k.place[k.current].sem !in v.mine
  }

  /** What an event does to places and semaphores. */
  ghost predicate Effect(k: State, v: View, k': State) {
    && (forall s :: s in v.mine && s in k.sems ==> s in k'.sems && k'.sems[s] == k.sems[s])
    && (forall t :: t in k.place && (t in v.busy || t in v.wants) ==> t in k'.place && k'.place[t] == k.place[t])
    && (forall t :: t in k'.place && k'.place[t].InP? && k'.place[t].sem in v.mine ==>
                      t in k.place && k.place[t] == k'.place[t])
  }

  lemma EffectHosts(k: State, v: View, k': State)
    requires Hosts(k, v) && Effect(k, v, k')
    ensures Hosts(k', v) && ValuesKept(k, k', v.mine)
  {
  }

  lemma OtherHosted(k: State, v: View, e: Event)
    requires Inv(k) && Hosts(k, v) && Elsewhere(k, v, e)
    ensures !Step(k, e).AssertFails?
    ensures Step(k, e).Next? ==>
              Inv(Step(k, e).state) && Hosts(Step(k, e).state, v) && ValuesKept(k, Step(k, e).state, v.mine)
  {
    StepKeeps(k, e);
    hide Inv, Hosts, ValuesKept;
    if Step(k, e).Next? {
      OtherEffect(k, v, e);
      hide Step, Effect;
      EffectHosts(k, v, Step(k, e).state);
    }
  }

  lemma OtherEffect(k: State, v: View, e: Event)
    requires Inv(k) && Hosts(k, v) && Elsewhere(k, v, e) && Step(k, e).Next?
    ensures Effect(k, v, Step(k, e).state)
  {
    hide Inv, Hosts, Effect, Fresh, TestP, DoV, DoCleanup;
    match e
    case NewThread(t) => NewThreadEffect(k, v, t);
    case Fork(t) => ForkEffect(k, v, t);
    case NewSemaphore(s, x) => SamePlaces(k, v, Step(k, e).state);
    case P(s) => TestAway(k, v, s);
    case V(s) => VAway(k, v, s);
    case HandlerV(s) => VAway(k, v, s);
    case Yield => SamePlaces(k, v, Step(k, e).state);
    case Finish => FinishEffect(k, v);
    case Dispatch => SamePlaces(k, v, Step(k, e).state);
    case Cleanup => CleanupEffect(k, v);
    case TestAgain => TestAway(k, v, k.place[k.current].sem);
  }

  lemma SamePlaces(k: State, v: View, k': State)
    requires k'.place == k.place && forall s :: s in k.sems ==> s in k'.sems && k'.sems[s] == k.sems[s]
    ensures Effect(k, v, k')
  {
  }

  lemma NewThreadEffect(k: State, v: View, t: Tid)
    requires Inv(k) && Step(k, NewThread(t)).Next?
    ensures Effect(k, v, Step(k, NewThread(t)).state)
  {
    assert t !in k.place by { KeysAgree(k); }
    hide Inv;
  }

  lemma KeysAgree(k: State)
    requires Inv(k)
    ensures k.status.Keys == k.place.Keys
  {
  }

  lemma ForkEffect(k: State, v: View, t: Tid)
    requires Hosts(k, v) && Step(k, Fork(t)).Next?
    ensures Effect(k, v, Step(k, Fork(t)).state)
  {
  }

  lemma FinishEffect(k: State, v: View)
    requires k.current !in v.busy && k.current !in v.wants && Step(k, Finish).Next?
    ensures Effect(k, v, Step(k, Finish).state)
  {
  }

  lemma TestAway(k: State, v: View, s: Sid)
    requires Inv(k) && Hosts(k, v) && s in k.sems && s !in v.mine && TestP(k, s).Next?
    requires (k.current !in v.busy && k.current !in v.wants) || (k.current in k.place && k.place[k.current] == InP(s))
    ensures Effect(k, v, TestP(k, s).state)
  {
    TestEffect(k, s);
    hide Inv, TestP;
  }

  lemma VAway(k: State, v: View, s: Sid)
    requires s in k.sems && s !in v.mine && DoV(k, s).Next?
    ensures Effect(k, v, DoV(k, s).state)
  {
    UpEffect(k, s);
    hide DoV;
  }

  lemma CleanupEffect(k: State, v: View)
    requires Inv(k) && Hosts(k, v) && Step(k, Cleanup).Next?
    ensures Effect(k, v, Step(k, Cleanup).state)
  {
    DeadFinished(k);
    hide Inv;
  }

  lemma DeadFinished(k: State)
    requires Inv(k)
    ensures k.toBeDestroyed.Some? ==> k.toBeDestroyed.value in k.place && k.place[k.toBeDestroyed.value].Finished?
  {
    hide Placed, Queued, OnCpu, Labelled, Counted;
  }

  // ----- when the machine has nothing left to run -----

  ghost predicate Halted(k: State) { k.cpu.Asleep? && k.ready == [] }

  /** Then every thread inside the program waits in P, for a semaphore whose value is zero. */
  lemma HaltedHosts(k: State, v: View, t: Tid)
    requires Inv(k) && Hosts(k, v) && Halted(k)
    ensures t !in v.busy
    ensures t in v.wants ==> v.wants[t] in k.sems && k.sems[v.wants[t]].value == 0
  {
    NoCode(k, t);
    if t in v.wants {
      EmptyHanded(k, v.wants[t], t);
    }
    hide Inv;
  }

  lemma NoCode(k: State, t: Tid)
    requires Inv(k) && Halted(k)
    ensures t in k.place ==> !k.place[t].Code?
  {
    hide Queued, Buried, Labelled, Counted, Distinct;
  }

  /** A thread asleep in P while nothing is ready: nobody is on the way to a unit, so there is none. */
  lemma EmptyHanded(k: State, s: Sid, t: Tid)
    requires Inv(k) && Halted(k)
    ensures t in k.place && k.place[t] == InP(s) ==> s in k.sems && k.sems[s].value == 0
  {
    if t in k.place && k.place[t] == InP(s) {
      QueuedThere(k, s, t);
      assert Woken(k, s) == {} by {
        forall u | u in Woken(k, s) ensures false {
          QueuedThere(k, s, u);
        }
      }
      hide Placed, Queued, OnCpu, Buried, Labelled, Woken;
    }
  }

  lemma QueuedThere(k: State, s: Sid, t: Tid)
    requires Inv(k) && Halted(k) && t in k.place && k.place[t] == InP(s)
    ensures s in k.sems && t in k.sems[s].queue
  {
    hide Placed, OnCpu, Buried, Labelled, Counted, Distinct;
  }

  // ----- P and V as a program uses them -----

  /** The kernel's effect on the values of taking a unit of s. */
  ghost predicate Takes(k: State, k': State, s: Sid, mine: set<Sid>) {
    && s in k.sems && s in k'.sems && ValuesKept(k, k', mine - {s})
    && k'.sems[s].value == k.sems[s].value - 1 > -1
  }

  lemma TakesIs(k: State, k': State, s: Sid, mine: set<Sid>)
    requires s in k.sems && s in k'.sems && ValuesKept(k, k', mine - {s})
    requires k'.sems[s].value == k.sems[s].value - 1 > -1
    ensures Takes(k, k', s, mine)
  {
  }

  /** Both events by which a thread tests a semaphore. */
  ghost predicate Tests(k: State, e: Event, s: Sid) {
    && s in k.sems
    && ((k.cpu.On? && e == P(s))
        || (k.cpu.Retest? && e.TestAgain? && k.current in k.place && k.place[k.current] == InP(s)))
  }

  lemma TestsIs(k: State, e: Event, s: Sid)
    requires Tests(k, e, s)
    ensures Step(k, e) == TestP(k, s)
    ensures k.cpu.On? || (k.cpu.Retest? && k.current in k.place && k.place[k.current] == InP(s))
  {
    hide TestP;
  }

  /** The kernel's effect on the values of giving a unit to s. */
  ghost predicate Gives(k: State, k': State, s: Sid, mine: set<Sid>) {
    && s in k.sems && s in k'.sems && ValuesKept(k, k', mine - {s}) && k'.sems[s].value == k.sems[s].value + 1
  }

  lemma VIs(k: State, s: Sid)
    requires k.cpu.On? && s in k.sems
    ensures Step(k, V(s)) == DoV(k, s)
  {
    hide DoV;
  }

  lemma GivesIs(k: State, k': State, s: Sid, mine: set<Sid>)
    requires s in k.sems && s in k'.sems && ValuesKept(k, k', mine - {s}) && k'.sems[s].value == k.sems[s].value + 1
    ensures Gives(k, k', s, mine)
  {
  }

  lemma KernelAppends(k: State, run: seq<Event>, k': State, events: seq<Event>, k'': State)
    requires Exec(k, run) == Next(k')
    requires (events == [] && k'' == k') || (|events| == 1 && Step(k', events[0]) == Next(k''))
    ensures Exec(k, run + events) == Next(k'')
  {
    hide Step;
    if events == [] {
      assert run + events == run;
    } else {
      var more := run + events;
      assert more[..|more| - 1] == run;
    }
  }
}
