/** Threads, the scheduler and semaphores (threads/thread.cc, threads/scheduler.cc,
    threads/synch.cc) as one transition system.

    On this uniprocessor a context switch or an interrupt handler can only occur
    where simulated time advances: when interrupts are re-enabled and when the
    machine idles.  Everything in between is one step here. */
module Kernel {
  import opened Base

  type Tid = nat
  type Sid = nat

  datatype Status = JustCreated | Running | Ready | Blocked

  /** How far a thread has got, as far as the kernel is concerned. */
  datatype Place =
    | New            // allocated, not forked yet
    | Code           // running, or ready to run, outside Semaphore::P
    | InP(sem: Sid)  // inside the loop of Semaphore::P, after going to sleep
    | Finished       // inside Thread::Finish

  /** A semaphore; `initial`, `ups` and `downs` record its history. */
  datatype Sem = Sem(value: int, queue: seq<Tid>, initial: int, ups: nat, downs: nat)

  /** What the processor is doing. */
  datatype Cpu =
    | On                       // the current thread runs, interrupts enabled
    | Asleep(finishing: bool)  // in the loop of Thread::Sleep
    | Resumed                  // just switched to, before CheckToBeDestroyed
    | Retest                   // back in the loop of Semaphore::P

  datatype State = State(
    ready: seq<Tid>,
    current: Tid,
    toBeDestroyed: Option<Tid>,
    status: map<Tid, Status>,
    place: map<Tid, Place>,
    sems: map<Sid, Sem>,
    cpu: Cpu,
    deleted: seq<(Tid, Tid)>)  // (thread, the thread that deleted it), oldest first

  datatype Event =
    | NewThread(t: Tid)
    | Fork(t: Tid)
    | NewSemaphore(s: Sid, initial: int)
    | P(s: Sid)
    | V(s: Sid)
    | HandlerV(s: Sid)
    | Yield
    | Finish
    | Dispatch
    | Cleanup
    | TestAgain

  /** The state in which Kernel::Initialize leaves the main thread. */
  function Boot(main: Tid): (st: State) {
    State([], main, None, map[main := Running], map[main := Code], map[], On, [])
  }

  // ----- the routines of the source -----

  /** Scheduler::ReadyToRun; List::Append refuses an item already listed. */
  function ReadyToRun(st: State, t: Tid): Outcome<State> {
    if t in st.ready then AssertFails
    else Next(st.(status := st.status[t := Ready], ready := st.ready + [t]))
  }

  /** Scheduler::Run up to the switch. */
  function Run(st: State, next: Tid, finishing: bool): Outcome<State> {
    if finishing && st.toBeDestroyed.Some? then AssertFails
    else Next(st.(
                toBeDestroyed := if finishing then Some(st.current) else st.toBeDestroyed,
                current := next,
                status := st.status[next := Running],
                cpu := Resumed))
  }

  /** One pass through the loop condition of Semaphore::P. */
  function TestP(st: State, s: Sid): Outcome<State>
    requires s in st.sems
  {
    var sem := st.sems[s];
    if sem.value == 0 then
      if st.current in sem.queue then AssertFails
      else Next(st.(
                  sems := st.sems[s := sem.(queue := sem.queue + [st.current])],
                  place := st.place[st.current := InP(s)],
                  status := st.status[st.current := Blocked],
                  cpu := Asleep(false)))
    else
      Next(st.(
             sems := st.sems[s := sem.(value := sem.value - 1, downs := sem.downs + 1)],
             place := st.place[st.current := Code],
             cpu := On))
  }

  /** Semaphore::V. */
  function DoV(st: State, s: Sid): Outcome<State>
    requires s in st.sems
  {
    var sem := st.sems[s];
    var woken :=
      if sem.queue == [] then Next(st)
      else ReadyToRun(st.(sems := st.sems[s := sem.(queue := sem.queue[1..])]), sem.queue[0]);
    if woken.Next? && s in woken.state.sems then
      var sem' := woken.state.sems[s];
      Next(woken.state.(sems := woken.state.sems[s := sem'.(value := sem'.value + 1, ups := sem'.ups + 1)]))
    else woken
  }

  /** Scheduler::CheckToBeDestroyed, then back to where the thread was switched out. */
  function DoCleanup(st: State): Outcome<State> {
    var resumed := st.(cpu := if st.current in st.place && st.place[st.current].InP? then Retest else On);
    match st.toBeDestroyed
    case None => Next(resumed)
    case Some(dead) =>
      if dead == st.current then AssertFails
      else Next(resumed.(
                  toBeDestroyed := None,
                  status := st.status - {dead},
                  place := st.place - {dead},
                  deleted := st.deleted + [(dead, st.current)]))
  }

  predicate Fresh(st: State, t: Tid) {
    t !in st.status && forall i :: 0 <= i < |st.deleted| ==> st.deleted[i].0 != t
  }

  function Step(st: State, e: Event): Outcome<State> {
    match e
    case NewThread(t) =>
      if st.cpu.On? && Fresh(st, t)
      then Next(st.(status := st.status[t := JustCreated], place := st.place[t := New]))
      else Disabled
    case Fork(t) =>
      if st.cpu.On? && t in st.place && st.place[t].New?
      then ReadyToRun(st.(place := st.place[t := Code]), t)
      else Disabled
    case NewSemaphore(s, v) =>
      if st.cpu.On? && s !in st.sems && v >= 0
      then Next(st.(sems := st.sems[s := Sem(v, [], v, 0, 0)]))
      else Disabled
    case P(s) =>
      if st.cpu.On? && s in st.sems then TestP(st, s) else Disabled
    case V(s) =>
      if st.cpu.On? && s in st.sems then DoV(st, s) else Disabled
    case HandlerV(s) =>
      if (st.cpu.On? || st.cpu.Asleep?) && s in st.sems then DoV(st, s) else Disabled
    case Yield =>
      if !st.cpu.On? then Disabled
      else if st.ready == [] then Next(st)
      else
        var queued := ReadyToRun(st.(ready := st.ready[1..]), st.current);
        if queued.Next? then Run(queued.state, st.ready[0], false) else queued
    case Finish =>
      if st.cpu.On?
      then Next(st.(status := st.status[st.current := Blocked],
                    place := st.place[st.current := Finished],
                    cpu := Asleep(true)))
      else Disabled
    case Dispatch =>
      if st.cpu.Asleep? && st.ready != []
      then Run(st.(ready := st.ready[1..]), st.ready[0], st.cpu.finishing)
      else Disabled
    case Cleanup =>
      if st.cpu.Resumed? then DoCleanup(st) else Disabled
    case TestAgain =>
      if st.cpu.Retest? && st.current in st.place && st.place[st.current].InP? && st.place[st.current].sem in st.sems
      then TestP(st, st.place[st.current].sem)
      else Disabled
  }

  /** The state after a whole run, when every event of it is enabled. */
  function Exec(st: State, run: seq<Event>): Outcome<State> {
    if run == [] then Next(st)
    else
      var before := Exec(st, run[..|run| - 1]);
      if before.Next? then Step(before.state, run[|run| - 1]) else before
  }

  // ----- invariants -----

  /** The threads that V took out of the queue of `s` and that have not tested
      the value again. */
  ghost function Woken(st: State, s: Sid): set<Tid>
    requires s in st.sems
  {
    set t | t in st.place && st.place[t] == InP(s) && t !in st.sems[s].queue
  }

  ghost predicate Placed(st: State) {
    && st.status.Keys == st.place.Keys
    && st.current in st.place
    && Distinct(st.ready)
    && (forall t :: t in st.ready ==> t in st.place && (st.place[t].Code? || st.place[t].InP?))
    && (forall t :: t in st.place && st.place[t].Code? ==> t in st.ready || t == st.current)
  }

  ghost predicate Queued(st: State) {
    && (forall s :: s in st.sems ==> Distinct(st.sems[s].queue))
    && (forall s, t :: s in st.sems && t in st.sems[s].queue ==>
                         t in st.place && st.place[t] == InP(s) && t !in st.ready)
    && (forall t :: t in st.place && st.place[t].InP? ==>
                      && st.place[t].sem in st.sems
                      && (t in st.ready || t in st.sems[st.place[t].sem].queue
                          || (t == st.current && (st.cpu.Resumed? || st.cpu.Retest?))))
  }

  ghost predicate OnCpu(st: State)
    requires st.current in st.place
  {
    var here := st.place[st.current];
    match st.cpu
    case On => here.Code? && st.current !in st.ready && st.toBeDestroyed.None?
    case Asleep(finishing) =>
      && st.toBeDestroyed.None?
      && (if finishing then here.Finished? else here.InP?)
    case Resumed =>
      && (here.Code? || here.InP?) && st.current !in st.ready
      && (here.InP? && here.sem in st.sems ==> st.current !in st.sems[here.sem].queue)
    case Retest =>
      && here.InP? && st.current !in st.ready && st.toBeDestroyed.None?
      && (here.sem in st.sems ==> st.current !in st.sems[here.sem].queue)
  }

  /** A finished thread is the sleeping current thread or is about to be destroyed. */
  ghost predicate Buried(st: State) {
    && (forall t :: t in st.place && st.place[t].Finished? ==>
                      (t == st.current && st.cpu == Asleep(true)) || st.toBeDestroyed == Some(t))
    && (st.toBeDestroyed.Some? ==>
          && st.toBeDestroyed.value in st.place
          && st.place[st.toBeDestroyed.value].Finished?
          && st.toBeDestroyed.value != st.current)
    && (forall i :: 0 <= i < |st.deleted| ==>
                      st.deleted[i].0 !in st.place && st.deleted[i].0 != st.deleted[i].1)
    && (forall i, j :: 0 <= i < j < |st.deleted| ==> st.deleted[i].0 != st.deleted[j].0)
  }

  /** Conservation, and no wake-up is lost: while threads are queued, every unit
      of the value is claimed by a woken thread. */
  ghost predicate Counted(st: State) {
    forall s :: s in st.sems ==>
                  && st.sems[s].value >= 0
                  && st.sems[s].initial >= 0
                  && st.sems[s].value == st.sems[s].initial + st.sems[s].ups - st.sems[s].downs
                  && (st.sems[s].queue != [] ==> st.sems[s].value <= |Woken(st, s)|)
  }

  /** The status field agrees with where the thread is. */
  ghost predicate Labelled(st: State) {
    && st.status.Keys == st.place.Keys
    && (forall t :: t in st.ready && t in st.status ==> st.status[t].Ready?)
    && (forall t :: t in st.status && st.status[t].Ready? ==> t in st.ready)
    && (forall t :: t in st.status && st.status[t].Running? ==> t == st.current && !st.cpu.Asleep?)
    && (st.current in st.status && !st.cpu.Asleep? ==> st.status[st.current].Running?)
  }

  ghost predicate Inv(st: State) {
    Placed(st) && Queued(st) && OnCpu(st) && Buried(st) && Counted(st) && Labelled(st)
  }
}
