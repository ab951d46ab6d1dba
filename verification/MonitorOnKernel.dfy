/** SynchList, its lock and its condition variable on the kernel: every P, V and new Semaphore in threads/synchlist.cc
    and threads/synch.cc is the kernel's own, and threads are switched by the scheduler. */
module MonitorOnKernel {
  import opened Base
  import opened Hosting
  import K = Kernel
  import KP = KernelProofs
  import M = Monitor
  import MP = MonitorProofs
  import MT = MonitorTheorems

  type Tid = nat
  type Sid = nat

  /** `lock` is the lock's semaphore, `waiters` the semaphores of Condition::Wait that are in use, `mine` all semaphores
      the list has ever made. */
  datatype Hosted<T> = Hosted(k: K.State, m: M.Mon<T>, lock: Sid, waiters: map<Tid, Sid>, mine: set<Sid>)

  /** The current thread runs its next statement of SynchList (`sid` names a semaphore if it makes one), or the kernel
      does anything else. */
  datatype Act<T> = Run(call: M.Call<T>, sid: Sid) | Sys(e: K.Event)

  // ----- the statements that are P or V -----

  predicate AtLockP<T>(pc: M.Pc<T>) { pc.AppendLock? || pc.RemoveLock? || pc.WaitLock? || pc.BroadLock? }

  predicate AtP<T>(pc: M.Pc<T>) { AtLockP(pc) || pc.WaitSleep? }

  predicate AtLockV<T>(pc: M.Pc<T>) { pc.AppendUnlock? || pc.RemoveUnlock? || pc.WaitUnlock? || pc.BroadUnlock? }

  predicate AtWake<T>(pc: M.Pc<T>) { pc.AppendWake? || pc.BroadWake? }

  function PSem<T>(w: Hosted<T>, t: Tid): Sid
    requires t in w.m.pc
  {
    if w.m.pc[t].WaitSleep? && t in w.waiters then w.waiters[t] else w.lock
  }

  function ViewOf<T>(w: Hosted<T>): View {
    View(w.mine,
         map t | t in w.m.pc && AtP(w.m.pc[t]) :: PSem(w, t),
         set t | t in w.m.pc && !w.m.pc[t].Idle? && !AtP(w.m.pc[t]))
  }

  // ----- steps -----

  /** The monitor's side of a statement of the current thread, once the kernel is in state k'. */
  function Then<T(==)>(w: Hosted<T>, k': K.State, call: M.Call<T>, waiters: map<Tid, Sid>, mine: set<Sid>)
    : Outcome<Hosted<T>>
  {
    match M.Step(w.m, w.k.current, call)
    case Next(m') => Next(Hosted(k', m', w.lock, waiters, mine))
    case Disabled => Disabled
    case AssertFails => AssertFails
  }

  /** P: the statement is over if the kernel lets the thread run on; otherwise it sleeps in it. */
  function Down<T(==)>(w: Hosted<T>, e: K.Event, call: M.Call<T>): Outcome<Hosted<T>> {
    match K.Step(w.k, e)
    case Next(k') => if k'.cpu.On? then Then(w, k', call, w.waiters, w.mine) else Next(w.(k := k'))
    case Disabled => Disabled
    case AssertFails => AssertFails
  }

  function Up<T(==)>(w: Hosted<T>, s: Sid, call: M.Call<T>): Outcome<Hosted<T>> {
    match K.Step(w.k, K.V(s))
    case Next(k') => Then(w, k', call, w.waiters, w.mine)
    case Disabled => Disabled
    case AssertFails => AssertFails
  }

  function Make<T(==)>(w: Hosted<T>, sid: Sid, call: M.Call<T>): Outcome<Hosted<T>> {
    match K.Step(w.k, K.NewSemaphore(sid, 0))
    case Next(k') => Then(w, k', call, w.waiters[w.k.current := sid], w.mine + {sid})
    case Disabled => Disabled
    case AssertFails => AssertFails
  }

  function RunStatement<T(==)>(w: Hosted<T>, call: M.Call<T>, sid: Sid): Outcome<Hosted<T>>
    requires w.k.current in w.m.pc
  {
    var t := w.k.current;
    var pc := w.m.pc[t];
    if AtP(pc) then Down(w, K.P(PSem(w, t)), call)
    else if AtLockV(pc) then Up(w, w.lock, call)
    else if AtWake(pc) then if pc.waiter in w.waiters then Up(w, w.waiters[pc.waiter], call) else AssertFails
    else if pc.WaitEnqueue? then Make(w, sid, call)
    else Then(w, w.k, call, if pc.WaitFree? then w.waiters - {t} else w.waiters, w.mine)
  }

  /** The current thread is about to test one of the list's semaphores again. */
  predicate Retests<T>(w: Hosted<T>, e: K.Event) {
    && e.TestAgain? && w.k.cpu.Retest? && w.k.current in w.k.place && w.k.place[w.k.current].InP?
    && w.k.place[w.k.current].sem in w.mine
  }

  ghost function Step<T>(w: Hosted<T>, a: Act<T>): Outcome<Hosted<T>> {
    match a
    case Run(call, sid) =>
      if w.k.cpu.On? && w.k.current in w.m.pc then RunStatement(w, call, sid) else Disabled
    case Sys(e) =>
      if Retests(w, e) then Down(w, e, M.RemoveFront)
      else if !Elsewhere(w.k, ViewOf(w), e) then Disabled
      else match K.Step(w.k, e)
           case Next(k') => Next(w.(k := k'))
           case Disabled => Disabled
           case AssertFails => AssertFails
  }

  ghost function Exec<T>(w: Hosted<T>, run: seq<Act<T>>): Outcome<Hosted<T>> {
    if run == [] then Next(w)
    else
      var before := Exec(w, run[..|run| - 1]);
      if before.Next? then Step(before.state, run[|run| - 1]) else before
  }

  // ----- the invariant that couples the two -----

  ghost predicate Named<T>(m: M.Mon<T>, lock: Sid, waiters: map<Tid, Sid>, mine: set<Sid>) {
    && lock in mine && waiters.Keys == m.waiter.Keys
    && (forall t :: t in waiters ==> waiters[t] in mine && waiters[t] != lock)
    && (forall t, u :: t in waiters && u in waiters && t != u ==> waiters[t] != waiters[u])
  }

  ghost predicate Valued<T>(k: K.State, m: M.Mon<T>, lock: Sid, waiters: map<Tid, Sid>) {
    && lock in k.sems && k.sems[lock].value == m.value
    && (forall t :: t in waiters ==>
                      t in m.waiter && waiters[t] in k.sems && k.sems[waiters[t]].value == m.waiter[t])
  }

  ghost predicate Coupled<T>(w: Hosted<T>) {
    && K.Inv(w.k) && M.Inv(w.m) && Hosts(w.k, ViewOf(w))
    && Named(w.m, w.lock, w.waiters, w.mine) && Valued(w.k, w.m, w.lock, w.waiters)
  }

  /** Any sound kernel state, a new list, and its lock's semaphore, which nobody has used yet. */
  ghost predicate Initial<T>(w: Hosted<T>) {
    && K.Inv(w.k) && M.Initial(w.m) && w.waiters == map[] && w.mine == {w.lock}
    && w.lock in w.k.sems && w.k.sems[w.lock].value == 1
    && forall t :: t in w.k.place ==> w.k.place[t] != K.InP(w.lock)
  }

  lemma InitialCoupled<T>(w: Hosted<T>)
    requires Initial(w)
    ensures Coupled(w)
  {
    MP.InitialInv(w.m);
    InitialView(w);
    hide K.Inv, M.Inv, ViewOf;
    UnusedHosts(w.k, w.lock);
  }

  lemma InitialView<T>(w: Hosted<T>)
    requires M.Initial(w.m) && w.mine == {w.lock}
    ensures ViewOf(w) == View({w.lock}, map[], {})
  {
    assert ViewOf(w).wants == map[] && ViewOf(w).busy == {};
  }

  lemma UnusedHosts(k: K.State, lock: Sid)
    requires lock in k.sems && forall t :: t in k.place ==> k.place[t] != K.InP(lock)
    ensures Hosts(k, View({lock}, map[], {}))
  {
  }

  // ----- what a statement does to the monitor -----

  /** The values of the semaphores after a statement of thread t. */
  ghost predicate Changes<T>(m: M.Mon<T>, t: Tid, m': M.Mon<T>)
    requires t in m.pc
  {
    var pc := m.pc[t];
    && t in m'.pc && m'.pc == m.pc[t := m'.pc[t]]
    && (if AtLockP(pc) then m'.value == m.value - 1 else if AtLockV(pc) then m'.value == m.value + 1
        else m'.value == m.value)
    && (if pc.WaitSleep? then t in m.waiter && m'.waiter == m.waiter[t := m.waiter[t] - 1]
        else if AtWake(pc) then pc.waiter in m.waiter && m'.waiter == m.waiter[pc.waiter := m.waiter[pc.waiter] + 1]
        else if pc.WaitEnqueue? then m'.waiter == m.waiter[t := 0]
        else if pc.WaitFree? then m'.waiter == m.waiter - {t}
        else m'.waiter == m.waiter)
  }

  /** A statement waits only at a P, and only for a unit. */
  ghost predicate Answers<T>(m: M.Mon<T>, t: Tid, r: Outcome<M.Mon<T>>)
    requires t in m.pc
  {
    && (r.Next? ==> Changes(m, t, r.state))
    && (r.Disabled? ==> if AtLockP(m.pc[t]) then m.value <= 0
                        else m.pc[t].WaitSleep? && t in m.waiter && m.waiter[t] <= 0)
  }

  predicate InAppend<T>(pc: M.Pc<T>) {
    || pc.AppendLock? || pc.AppendOwn? || pc.AppendAdd? || pc.AppendSignal? || pc.AppendWake? || pc.AppendDisown?
    || pc.AppendUnlock?
  }

  predicate InRemove<T>(pc: M.Pc<T>) {
    pc.RemoveLock? || pc.RemoveOwn? || pc.RemoveTest? || pc.RemoveTake? || pc.RemoveDisown? || pc.RemoveUnlock?
  }

  predicate InWait<T>(pc: M.Pc<T>) {
    || pc.WaitEnqueue? || pc.WaitDisown? || pc.WaitUnlock? || pc.WaitSleep? || pc.WaitLock? || pc.WaitOwn?
    || pc.WaitFree?
  }

  predicate InBroadcast<T>(pc: M.Pc<T>) {
    pc.BroadLock? || pc.BroadOwn? || pc.BroadTest? || pc.BroadWake? || pc.BroadDisown? || pc.BroadUnlock?
  }

  lemma AppendChanges<T>(m: M.Mon<T>, t: Tid)
    requires t in m.pc && InAppend(m.pc[t])
    ensures Answers(m, t, M.StepAppend(m, t))
  {
  }

  lemma RemoveChanges<T>(m: M.Mon<T>, t: Tid)
    requires t in m.pc && InRemove(m.pc[t])
    ensures Answers(m, t, M.StepRemove(m, t))
  {
  }

  lemma WaitChanges<T>(m: M.Mon<T>, t: Tid)
    requires t in m.pc && InWait(m.pc[t])
    ensures Answers(m, t, M.StepWait(m, t))
  {
  }

  lemma BroadcastChanges<T>(m: M.Mon<T>, t: Tid)
    requires t in m.pc && InBroadcast(m.pc[t])
    ensures Answers(m, t, M.StepBroadcast(m, t))
  {
  }

  lemma IdleChanges<T>(m: M.Mon<T>, t: Tid, call: M.Call<T>)
    requires t in m.pc && m.pc[t].Idle?
    ensures Answers(m, t, M.Step(m, t, call))
  {
  }

  lemma StepChanges<T>(m: M.Mon<T>, t: Tid, call: M.Call<T>)
    requires t in m.pc
    ensures Answers(m, t, M.Step(m, t, call))
  {
    hide Answers, M.StepAppend, M.StepRemove, M.StepWait, M.StepBroadcast;
    if m.pc[t].Idle? {
      IdleChanges(m, t, call);
    } else if InAppend(m.pc[t]) {
      AppendChanges(m, t);
    } else if InRemove(m.pc[t]) {
      RemoveChanges(m, t);
    } else if InWait(m.pc[t]) {
      WaitChanges(m, t);
    } else {
      BroadcastChanges(m, t);
    }
  }

  // ----- every act keeps the coupling -----

  /** The kernel's view of the program after thread t has moved; its P, if that was a P, is over. */
  lemma ViewFollows<T>(w: Hosted<T>, w': Hosted<T>, v: View, t: Tid)
    requires t in w.m.pc && t in w'.m.pc && w'.m.pc == w.m.pc[t := w'.m.pc[t]] && w'.lock == w.lock
    requires forall u :: u != t ==> (u in w'.waiters <==> u in w.waiters)
    requires forall u :: u != t && u in w.waiters ==> w'.waiters[u] == w.waiters[u]
    requires Named(w'.m, w'.lock, w'.waiters, w'.mine)
    requires v.mine == w'.mine && v.busy == ViewOf(w).busy
    requires v.wants == ViewOf(w).wants || v.wants == ViewOf(w).wants - {t}
    ensures Follows(v, ViewOf(w'), t)
  {
  }

  lemma Couple<T>(w: Hosted<T>, w': Hosted<T>, v: View, t: Tid)
    requires t in w.m.pc && t in w'.m.pc && w'.m.pc == w.m.pc[t := w'.m.pc[t]] && w'.lock == w.lock
    requires forall u :: u != t ==> (u in w'.waiters <==> u in w.waiters)
    requires forall u :: u != t && u in w.waiters ==> w'.waiters[u] == w.waiters[u]
    requires v.mine == w'.mine && v.busy == ViewOf(w).busy
    requires v.wants == ViewOf(w).wants || v.wants == ViewOf(w).wants - {t}
    requires K.Inv(w'.k) && M.Inv(w'.m) && Hosts(w'.k, v) && t in w'.k.place && w'.k.place[t].Code?
    requires Named(w'.m, w'.lock, w'.waiters, w'.mine) && Valued(w'.k, w'.m, w'.lock, w'.waiters)
    ensures Coupled(w')
  {
    hide K.Inv, M.Inv, Hosts, Valued, Named, Follows, ViewOf;
    ViewFollows(w, w', v, t);
    MoveHosted(w'.k, v, ViewOf(w'), t);
  }

  /** A statement on the lock's semaphore, or on none. */
  lemma LockValued<T>(k: K.State, k': K.State, m: M.Mon<T>, m': M.Mon<T>, lock: Sid, waiters: map<Tid, Sid>,
                      mine: set<Sid>)
    requires Named(m, lock, waiters, mine) && Valued(k, m, lock, waiters) && m'.waiter == m.waiter
    requires ValuesKept(k, k', mine - {lock}) && lock in k'.sems && k'.sems[lock].value == m'.value
    ensures Named(m', lock, waiters, mine) && Valued(k', m', lock, waiters)
  {
  }

  /** A statement on the semaphore of waiter u. */
  lemma WaiterValued<T>(k: K.State, k': K.State, m: M.Mon<T>, m': M.Mon<T>, lock: Sid, waiters: map<Tid, Sid>,
                        mine: set<Sid>, u: Tid)
    requires Named(m, lock, waiters, mine) && Valued(k, m, lock, waiters) && m'.value == m.value
    requires u in waiters && u in m'.waiter && m'.waiter == m.waiter[u := m'.waiter[u]]
    requires ValuesKept(k, k', mine - {waiters[u]})
    requires waiters[u] in k'.sems && k'.sems[waiters[u]].value == m'.waiter[u]
    ensures Named(m', lock, waiters, mine) && Valued(k', m', lock, waiters)
  {
  }

  lemma MadeValued<T>(k: K.State, k': K.State, m: M.Mon<T>, m': M.Mon<T>, lock: Sid, waiters: map<Tid, Sid>,
                      mine: set<Sid>, t: Tid, sid: Sid)
    requires Named(m, lock, waiters, mine) && Valued(k, m, lock, waiters) && m'.value == m.value
    requires m'.waiter == m.waiter[t := 0] && sid !in mine
    requires ValuesKept(k, k', mine) && sid in k'.sems && k'.sems[sid].value == 0
    ensures Named(m', lock, waiters[t := sid], mine + {sid}) && Valued(k', m', lock, waiters[t := sid])
  {
  }

  lemma FreedValued<T>(k: K.State, m: M.Mon<T>, m': M.Mon<T>, lock: Sid, waiters: map<Tid, Sid>, mine: set<Sid>, t: Tid)
    requires Named(m, lock, waiters, mine) && Valued(k, m, lock, waiters) && m'.value == m.value
    requires m'.waiter == m.waiter - {t}
    ensures Named(m', lock, waiters - {t}, mine) && Valued(k, m', lock, waiters - {t})
  {
  }

  // ----- the four kinds of statement -----

  /** The monitor's half of a statement: it keeps the monitor's invariant and fails only on a duplicate. */
  lemma MonitorHalf<T>(w: Hosted<T>, call: M.Call<T>)
    requires Coupled(w) && w.k.current in w.m.pc
    ensures var (t, r) := (w.k.current, M.Step(w.m, w.k.current, call));
            && (r.AssertFails? ==> MP.AddsTwice(w.m, t))
            && Answers(w.m, t, r) && (r.Next? ==> M.Inv(r.state))
  {
    hide K.Inv, M.Inv, M.Step, Hosts, Answers;
    MP.StepKeeps(w.m, w.k.current, call);
    StepChanges(w.m, w.k.current, call);
  }

  /** The thread that runs is in the kernel's code, outside P. */
  lemma RunnerOutside<T>(w: Hosted<T>)
    requires Coupled(w) && w.k.cpu.On?
    ensures w.k.current in w.k.place && w.k.place[w.k.current].Code?
  {
    hide K.Inv, M.Inv, Hosts;
    CurrentPlaced(w.k);
  }

  lemma SemsAre<T>(w: Hosted<T>)
    requires Coupled(w)
    ensures w.mine <= w.k.sems.Keys
  {
    hide K.Inv, M.Inv;
  }

  ghost predicate Follower<T>(w: Hosted<T>, w': Hosted<T>, call: M.Call<T>) {
    w'.m == w.m || M.Step(w.m, w.k.current, call) == Next(w'.m)
  }

  /** The two halves put together; v is the kernel's view when its own half is done. */
  lemma ThenKeeps<T>(w: Hosted<T>, k': K.State, call: M.Call<T>, waiters: map<Tid, Sid>, mine: set<Sid>, v: View)
    requires Coupled(w) && w.k.current in w.m.pc && M.Step(w.m, w.k.current, call).Next?
    requires K.Inv(k') && Hosts(k', v) && w.k.current in k'.place && k'.place[w.k.current].Code?
    requires v.mine == mine && v.busy == ViewOf(w).busy
    requires v.wants == ViewOf(w).wants || v.wants == ViewOf(w).wants - {w.k.current}
    requires forall u :: u != w.k.current ==> (u in waiters <==> u in w.waiters)
    requires forall u :: u != w.k.current && u in w.waiters ==> waiters[u] == w.waiters[u]
    requires var m' := M.Step(w.m, w.k.current, call).state;
             Named(m', w.lock, waiters, mine) && Valued(k', m', w.lock, waiters)
    ensures var r := Then(w, k', call, waiters, mine);
            r.Next? && Coupled(r.state) && Follower(w, r.state, call) && r.state.k == k'
  {
    MonitorHalf(w, call);
    hide *;
    ThenIs(w, k', call, waiters, mine);
    ChangesPc(w.m, w.k.current, M.Step(w.m, w.k.current, call));
    Couple(w, Then(w, k', call, waiters, mine).state, v, w.k.current);
  }

  lemma ThenIs<T>(w: Hosted<T>, k': K.State, call: M.Call<T>, waiters: map<Tid, Sid>, mine: set<Sid>)
    requires M.Step(w.m, w.k.current, call).Next?
    ensures Then(w, k', call, waiters, mine)
         == Next(Hosted(k', M.Step(w.m, w.k.current, call).state, w.lock, waiters, mine))
    ensures Follower(w, Then(w, k', call, waiters, mine).state, call)
  {
    hide M.Step;
  }

  lemma ChangesPc<T>(m: M.Mon<T>, t: Tid, r: Outcome<M.Mon<T>>)
    requires t in m.pc && Answers(m, t, r)
    ensures r.Next? ==> t in r.state.pc && r.state.pc == m.pc[t := r.state.pc[t]]
  {
  }

  /** P succeeds: one unit less, and the thread is past it. */
  lemma TakenKeeps<T>(w: Hosted<T>, k': K.State, call: M.Call<T>)
    requires Coupled(w) && w.k.current in w.m.pc && AtP(w.m.pc[w.k.current]) && K.Inv(k')
    requires Takes(w.k, k', PSem(w, w.k.current), w.mine)
    requires w.k.current in k'.place && k'.place[w.k.current].Code?
    requires Hosts(k', ViewOf(w).(wants := ViewOf(w).wants - {w.k.current})) && ViewOf(w).mine == w.mine
    ensures var r := Then(w, k', call, w.waiters, w.mine);
            r.Next? && Coupled(r.state) && Follower(w, r.state, call) && r.state.k == k'
  {
    MonitorHalf(w, call);
    CoupledNames(w);
    hide *;
    if w.m.pc[w.k.current].WaitSleep? {
      TakenWaiter(w, k', call);
    } else {
      TakenLock(w, k', call);
    }
    ThenKeeps(w, k', call, w.waiters, w.mine, ViewOf(w).(wants := ViewOf(w).wants - {w.k.current}));
  }

  lemma CoupledNames<T>(w: Hosted<T>)
    requires Coupled(w)
    ensures M.Inv(w.m) && Named(w.m, w.lock, w.waiters, w.mine) && Valued(w.k, w.m, w.lock, w.waiters)
  {
    hide K.Inv, M.Inv, Hosts, ViewOf, Named, Valued;
  }

  lemma TakenWaiter<T>(w: Hosted<T>, k': K.State, call: M.Call<T>)
    requires w.k.current in w.m.pc && w.m.pc[w.k.current].WaitSleep? && M.Inv(w.m)
    requires Named(w.m, w.lock, w.waiters, w.mine) && Valued(w.k, w.m, w.lock, w.waiters)
    requires Answers(w.m, w.k.current, M.Step(w.m, w.k.current, call))
    requires M.Step(w.m, w.k.current, call).AssertFails? ==> MP.AddsTwice(w.m, w.k.current)
    requires Takes(w.k, k', PSem(w, w.k.current), w.mine)
    ensures M.Step(w.m, w.k.current, call).Next?
    ensures var m' := M.Step(w.m, w.k.current, call).state;
            Named(m', w.lock, w.waiters, w.mine) && Valued(k', m', w.lock, w.waiters)
  {
    var t := w.k.current;
    SleeperNamed(w.m, w.lock, w.waiters, w.mine, t);
    hide M.Inv, M.Step;
    assert w.k.sems[w.waiters[t]].value == w.m.waiter[t];
    WaiterValued(w.k, k', w.m, M.Step(w.m, t, call).state, w.lock, w.waiters, w.mine, t);
  }

  lemma TakenLock<T>(w: Hosted<T>, k': K.State, call: M.Call<T>)
    requires w.k.current in w.m.pc && AtP(w.m.pc[w.k.current]) && !w.m.pc[w.k.current].WaitSleep?
    requires Named(w.m, w.lock, w.waiters, w.mine) && Valued(w.k, w.m, w.lock, w.waiters)
    requires Answers(w.m, w.k.current, M.Step(w.m, w.k.current, call))
    requires M.Step(w.m, w.k.current, call).AssertFails? ==> MP.AddsTwice(w.m, w.k.current)
    requires Takes(w.k, k', PSem(w, w.k.current), w.mine)
    ensures M.Step(w.m, w.k.current, call).Next?
    ensures var m' := M.Step(w.m, w.k.current, call).state;
            Named(m', w.lock, w.waiters, w.mine) && Valued(k', m', w.lock, w.waiters)
  {
    hide M.Step;
    LockValued(w.k, k', w.m, M.Step(w.m, w.k.current, call).state, w.lock, w.waiters, w.mine);
  }

  /** A thread in Wait has its semaphore. */
  lemma SleeperNamed<T>(m: M.Mon<T>, lock: Sid, waiters: map<Tid, Sid>, mine: set<Sid>, t: Tid)
    requires M.Inv(m) && Named(m, lock, waiters, mine) && t in m.pc && M.BeforeSleep(m.pc[t])
    ensures t in waiters && t in m.waiter
  {
    hide M.Locked, M.Listed, M.Claimed, M.Broadcasting, M.Raised;
  }

  lemma WantsIs<T>(w: Hosted<T>, t: Tid)
    requires t in w.m.pc && AtP(w.m.pc[t])
    ensures t in ViewOf(w).wants && ViewOf(w).wants[t] == PSem(w, t) && ViewOf(w).mine == w.mine
  {
  }

  lemma CoupledHosts<T>(w: Hosted<T>)
    requires Coupled(w)
    ensures K.Inv(w.k) && Hosts(w.k, ViewOf(w)) && w.mine <= w.k.sems.Keys && ViewOf(w).mine == w.mine
  {
    hide K.Inv, M.Inv, Named, Valued;
  }

  lemma PKeeps<T>(w: Hosted<T>, e: K.Event, call: M.Call<T>)
    requires Coupled(w) && w.k.current in w.m.pc && AtP(w.m.pc[w.k.current]) && Tests(w.k, e, PSem(w, w.k.current))
    ensures Down(w, e, call).Next? && Coupled(Down(w, e, call).state)
    ensures Follower(w, Down(w, e, call).state, call) && K.Step(w.k, e) == Next(Down(w, e, call).state.k)
  {
    hide *;
    var s := PSem(w, w.k.current);
    WantsIs(w, w.k.current);
    TestsIs(w.k, e, s);
    CoupledHosts(w);
    DownHosted(w.k, ViewOf(w), s);
    var k' := K.TestP(w.k, s).state;
    DownIs(w, e, k', call);
    if w.k.sems[s].value == 0 {
      StillAsleep(w, k', s);
      StaysPut(w, k', call);
    } else {
      TakesIs(w.k, k', s, w.mine);
      TakenKeeps(w, k', call);
    }
  }

  lemma DownIs<T>(w: Hosted<T>, e: K.Event, k': K.State, call: M.Call<T>)
    requires K.Step(w.k, e) == Next(k')
    ensures Down(w, e, call) == if k'.cpu.On? then Then(w, k', call, w.waiters, w.mine) else Next(w.(k := k'))
  {
    hide K.Step;
  }

  lemma StaysPut<T>(w: Hosted<T>, k': K.State, call: M.Call<T>)
    ensures Follower(w, w.(k := k'), call)
  {
  }

  lemma StillAsleep<T>(w: Hosted<T>, k': K.State, s: Sid)
    requires Coupled(w) && K.Inv(k') && Hosts(k', ViewOf(w))
    requires s in w.k.sems && s in k'.sems && w.k.sems[s].value == k'.sems[s].value && ValuesKept(w.k, k', w.mine - {s})
    ensures Coupled(w.(k := k'))
  {
    hide K.Inv, M.Inv, Hosts;
    assert ViewOf(w.(k := k')) == ViewOf(w);
    hide ViewOf;
  }

  /** The kernel's half of V. */
  lemma GivesUnit<T>(w: Hosted<T>, s: Sid)
    requires Coupled(w) && w.k.cpu.On? && s in w.mine
    ensures var r := K.Step(w.k, K.V(s));
            && r.Next? && K.Inv(r.state) && Gives(w.k, r.state, s, w.mine) && Hosts(r.state, ViewOf(w))
            && ViewOf(w).mine == w.mine && w.k.current in r.state.place && r.state.place[w.k.current].Code?
  {
    hide *;
    CoupledHosts(w);
    RunnerOutside(w);
    VIs(w.k, s);
    UpHosted(w.k, ViewOf(w), s);
    GivesIs(w.k, K.DoV(w.k, s).state, s, w.mine);
  }

  lemma VKeeps<T>(w: Hosted<T>, s: Sid, call: M.Call<T>)
    requires Coupled(w) && w.k.cpu.On? && w.k.current in w.m.pc && s in w.mine
    requires (AtLockV(w.m.pc[w.k.current]) && s == w.lock)
          || (AtWake(w.m.pc[w.k.current]) && w.m.pc[w.k.current].waiter in w.waiters
              && s == w.waiters[w.m.pc[w.k.current].waiter])
    ensures var r := Up(w, s, call);
            && r.Next? && Coupled(r.state) && Follower(w, r.state, call) && K.Step(w.k, K.V(s)) == Next(r.state.k)
  {
    MonitorHalf(w, call);
    GivesUnit(w, s);
    CoupledNames(w);
    hide *;
    var k' := K.Step(w.k, K.V(s)).state;
    UpIs(w, s, call);
    if AtLockV(w.m.pc[w.k.current]) && s == w.lock {
      GivenLock(w, k', s, call);
    } else {
      GivenWaiter(w, k', s, call);
    }
    ThenKeeps(w, k', call, w.waiters, w.mine, ViewOf(w));
  }

  lemma UpIs<T>(w: Hosted<T>, s: Sid, call: M.Call<T>)
    requires K.Step(w.k, K.V(s)).Next?
    ensures Up(w, s, call) == Then(w, K.Step(w.k, K.V(s)).state, call, w.waiters, w.mine)
  {
    hide K.Step, Then;
  }

  lemma GivenWaiter<T>(w: Hosted<T>, k': K.State, s: Sid, call: M.Call<T>)
    requires w.k.current in w.m.pc && AtWake(w.m.pc[w.k.current])
    requires w.m.pc[w.k.current].waiter in w.waiters && s == w.waiters[w.m.pc[w.k.current].waiter]
    requires Named(w.m, w.lock, w.waiters, w.mine) && Valued(w.k, w.m, w.lock, w.waiters)
    requires Answers(w.m, w.k.current, M.Step(w.m, w.k.current, call))
    requires M.Step(w.m, w.k.current, call).AssertFails? ==> MP.AddsTwice(w.m, w.k.current)
    requires Gives(w.k, k', s, w.mine)
    ensures M.Step(w.m, w.k.current, call).Next?
    ensures var m' := M.Step(w.m, w.k.current, call).state;
            Named(m', w.lock, w.waiters, w.mine) && Valued(k', m', w.lock, w.waiters)
  {
    hide M.Step;
    var u := w.m.pc[w.k.current].waiter;
    assert w.k.sems[w.waiters[u]].value == w.m.waiter[u];
    WaiterValued(w.k, k', w.m, M.Step(w.m, w.k.current, call).state, w.lock, w.waiters, w.mine, u);
  }

  lemma GivenLock<T>(w: Hosted<T>, k': K.State, s: Sid, call: M.Call<T>)
    requires w.k.current in w.m.pc && AtLockV(w.m.pc[w.k.current]) && s == w.lock
    requires Named(w.m, w.lock, w.waiters, w.mine) && Valued(w.k, w.m, w.lock, w.waiters)
    requires Answers(w.m, w.k.current, M.Step(w.m, w.k.current, call))
    requires M.Step(w.m, w.k.current, call).AssertFails? ==> MP.AddsTwice(w.m, w.k.current)
    requires Gives(w.k, k', s, w.mine)
    ensures M.Step(w.m, w.k.current, call).Next?
    ensures var m' := M.Step(w.m, w.k.current, call).state;
            Named(m', w.lock, w.waiters, w.mine) && Valued(k', m', w.lock, w.waiters)
  {
    hide M.Step;
    LockValued(w.k, k', w.m, M.Step(w.m, w.k.current, call).state, w.lock, w.waiters, w.mine);
  }

  /** A signaller's target has its semaphore. */
  lemma TargetNamed<T>(w: Hosted<T>)
    requires Coupled(w) && w.k.current in w.m.pc && AtWake(w.m.pc[w.k.current])
    ensures w.m.pc[w.k.current].waiter in w.waiters && w.waiters[w.m.pc[w.k.current].waiter] in w.mine
  {
    CoupledNames(w);
    hide Coupled, Valued;
    TargetWaits(w.m, w.k.current);
  }

  lemma TargetWaits<T>(m: M.Mon<T>, t: Tid)
    requires M.Inv(m) && t in m.pc && AtWake(m.pc[t])
    ensures m.pc[t].waiter in m.waiter
  {
    hide M.Locked, M.Listed, M.Claimed, M.Broadcasting, M.Waiting;
    MP.WakeTarget(m, t, m.pc[t].waiter);
  }

  // a new semaphore in Condition::Wait

  lemma MakeKeeps<T>(w: Hosted<T>, sid: Sid, call: M.Call<T>)
    requires Coupled(w) && w.k.cpu.On? && w.k.current in w.m.pc && w.m.pc[w.k.current].WaitEnqueue?
    ensures sid in w.k.sems ==> Make(w, sid, call).Disabled?
    ensures sid !in w.k.sems ==>
              var r := Make(w, sid, call);
              && r.Next? && Coupled(r.state) && Follower(w, r.state, call)
              && K.Step(w.k, K.NewSemaphore(sid, 0)) == Next(r.state.k)
  {
    hide *;
    MakeIs(w, sid, call);
    if sid !in w.k.sems {
      MonitorHalf(w, call);
      MakesOne(w, sid);
      CoupledNames(w);
      var k' := K.Step(w.k, K.NewSemaphore(sid, 0)).state;
      MadeOne(w, k', sid, call);
      ThenKeeps(w, k', call, w.waiters[w.k.current := sid], w.mine + {sid}, ViewOf(w).(mine := w.mine + {sid}));
    }
  }

  lemma MakeIs<T>(w: Hosted<T>, sid: Sid, call: M.Call<T>)
    requires w.k.cpu.On?
    ensures sid in w.k.sems ==> Make(w, sid, call).Disabled?
    ensures K.Step(w.k, K.NewSemaphore(sid, 0)).Next? ==>
              Make(w, sid, call) == Then(w, K.Step(w.k, K.NewSemaphore(sid, 0)).state, call,
                                         w.waiters[w.k.current := sid], w.mine + {sid})
  {
    hide Then;
  }

  lemma MakesOne<T>(w: Hosted<T>, sid: Sid)
    requires Coupled(w) && w.k.cpu.On? && sid !in w.k.sems
    ensures var r := K.Step(w.k, K.NewSemaphore(sid, 0));
            && r.Next? && K.Inv(r.state) && sid !in w.mine && ValuesKept(w.k, r.state, w.mine) && sid in r.state.sems
            && r.state.sems[sid].value == 0 && Hosts(r.state, ViewOf(w).(mine := w.mine + {sid}))
            && w.k.current in r.state.place && r.state.place[w.k.current].Code?
  {
    hide *;
    CoupledHosts(w);
    RunnerOutside(w);
    NewHosted(w.k, ViewOf(w), sid);
  }

  lemma MadeOne<T>(w: Hosted<T>, k': K.State, sid: Sid, call: M.Call<T>)
    requires w.k.current in w.m.pc && w.m.pc[w.k.current].WaitEnqueue? && sid !in w.mine
    requires Named(w.m, w.lock, w.waiters, w.mine) && Valued(w.k, w.m, w.lock, w.waiters)
    requires Answers(w.m, w.k.current, M.Step(w.m, w.k.current, call))
    requires M.Step(w.m, w.k.current, call).AssertFails? ==> MP.AddsTwice(w.m, w.k.current)
    requires ValuesKept(w.k, k', w.mine) && sid in k'.sems && k'.sems[sid].value == 0
    ensures M.Step(w.m, w.k.current, call).Next?
    ensures var (m', more) := (M.Step(w.m, w.k.current, call).state, w.waiters[w.k.current := sid]);
            Named(m', w.lock, more, w.mine + {sid}) && Valued(k', m', w.lock, more)
  {
    hide M.Step;
    MadeValued(w.k, k', w.m, M.Step(w.m, w.k.current, call).state, w.lock, w.waiters, w.mine, w.k.current, sid);
  }

  // any other statement

  predicate Plain<T>(pc: M.Pc<T>) { !AtP(pc) && !AtLockV(pc) && !AtWake(pc) && !pc.WaitEnqueue? }

  function Left<T>(w: Hosted<T>): map<Tid, Sid>
    requires w.k.current in w.m.pc
  {
    if w.m.pc[w.k.current].WaitFree? then w.waiters - {w.k.current} else w.waiters
  }

  lemma PlainKeeps<T>(w: Hosted<T>, call: M.Call<T>)
    requires Coupled(w) && w.k.cpu.On? && w.k.current in w.m.pc && Plain(w.m.pc[w.k.current])
    ensures var r := Then(w, w.k, call, Left(w), w.mine);
            && !r.Disabled? && (r.AssertFails? ==> MP.AddsTwice(w.m, w.k.current))
            && (r.Next? ==> Coupled(r.state) && Follower(w, r.state, call) && r.state.k == w.k)
  {
    MonitorHalf(w, call);
    CoupledNames(w);
    CoupledHosts(w);
    RunnerOutside(w);
    PlainMoves(w.m, w.k.current, M.Step(w.m, w.k.current, call));
    assert ViewOf(w).mine == w.mine;
    hide *;
    ThenFails(w, w.k, call, Left(w), w.mine);
    if M.Step(w.m, w.k.current, call).Next? {
      LeftValued(w, call);
      ThenKeeps(w, w.k, call, Left(w), w.mine, ViewOf(w));
    }
  }

  lemma PlainMoves<T>(m: M.Mon<T>, t: Tid, r: Outcome<M.Mon<T>>)
    requires t in m.pc && Plain(m.pc[t]) && Answers(m, t, r)
    ensures !r.Disabled?
  {
  }

  lemma ThenFails<T>(w: Hosted<T>, k': K.State, call: M.Call<T>, waiters: map<Tid, Sid>, mine: set<Sid>)
    ensures var (r, q) := (M.Step(w.m, w.k.current, call), Then(w, k', call, waiters, mine));
            (q.Disabled? <==> r.Disabled?) && (q.AssertFails? <==> r.AssertFails?)
  {
    hide M.Step;
  }

  lemma LeftValued<T>(w: Hosted<T>, call: M.Call<T>)
    requires w.k.current in w.m.pc && Plain(w.m.pc[w.k.current]) && M.Step(w.m, w.k.current, call).Next?
    requires Answers(w.m, w.k.current, M.Step(w.m, w.k.current, call))
    requires Named(w.m, w.lock, w.waiters, w.mine) && Valued(w.k, w.m, w.lock, w.waiters)
    ensures forall u :: u != w.k.current ==> (u in Left(w) <==> u in w.waiters)
    ensures forall u :: u != w.k.current && u in w.waiters ==> Left(w)[u] == w.waiters[u]
    ensures var m' := M.Step(w.m, w.k.current, call).state;
            Named(m', w.lock, Left(w), w.mine) && Valued(w.k, m', w.lock, Left(w))
  {
    hide M.Step;
    if w.m.pc[w.k.current].WaitFree? {
      FreedValued(w.k, w.m, M.Step(w.m, w.k.current, call).state, w.lock, w.waiters, w.mine, w.k.current);
    }
  }

  // ----- the kernel's other events -----

  lemma KernelMoves<T>(w: Hosted<T>, k': K.State)
    requires Coupled(w) && K.Inv(k') && Hosts(k', ViewOf(w)) && ValuesKept(w.k, k', w.mine)
    ensures Coupled(w.(k := k'))
  {
    hide K.Inv, M.Inv, Hosts;
    assert ViewOf(w.(k := k')) == ViewOf(w);
    hide ViewOf;
  }

  lemma SysKeeps<T>(w: Hosted<T>, e: K.Event)
    requires Coupled(w) && Elsewhere(w.k, ViewOf(w), e)
    ensures !K.Step(w.k, e).AssertFails?
    ensures K.Step(w.k, e).Next? ==> Coupled(w.(k := K.Step(w.k, e).state))
  {
    hide *;
    CoupledHosts(w);
    OtherHosted(w.k, ViewOf(w), e);
    if K.Step(w.k, e).Next? {
      KernelMoves(w, K.Step(w.k, e).state);
    }
  }

  /** A thread that tests one of the list's semaphores again is at that P. */
  lemma RetestIs<T>(w: Hosted<T>, e: K.Event)
    requires Coupled(w) && Retests(w, e)
    ensures w.k.current in w.m.pc && AtP(w.m.pc[w.k.current]) && Tests(w.k, e, PSem(w, w.k.current))
  {
    hide K.Inv, M.Inv, Named, Valued;
  }

  // ----- whole runs -----

  /** At most one step of the monitor and one of the kernel. */
  ghost predicate Projects<T>(w: Hosted<T>, w': Hosted<T>, moves: seq<M.Move<T>>, events: seq<K.Event>) {
    && ((moves == [] && w'.m == w.m) || (|moves| == 1 && M.Step(w.m, moves[0].thread, moves[0].call) == Next(w'.m)))
    && ((events == [] && w'.k == w.k) || (|events| == 1 && K.Step(w.k, events[0]) == Next(w'.k)))
  }

  lemma Projection<T>(w: Hosted<T>, w': Hosted<T>, call: M.Call<T>, events: seq<K.Event>)
    returns (moves: seq<M.Move<T>>)
    requires Follower(w, w', call)
    requires (events == [] && w'.k == w.k) || (|events| == 1 && K.Step(w.k, events[0]) == Next(w'.k))
    ensures Projects(w, w', moves, events)
  {
    hide K.Step, M.Step;
    moves := if w'.m == w.m then [] else [M.Move(w.k.current, call)];
  }

  /** No ASSERT fails but that of List::Append, on a duplicate. */
  lemma StepFails<T>(w: Hosted<T>, a: Act<T>)
    requires Coupled(w)
    ensures Step(w, a).AssertFails? ==> a.Run? && w.k.cpu.On? && MP.AddsTwice(w.m, w.k.current)
  {
    hide Coupled, Down, Up, Make, Then, K.Step, Elsewhere, ViewOf, PSem, MP.AddsTwice;
    match a
    case Run(call, sid) =>
      if w.k.cpu.On? && w.k.current in w.m.pc {
        StatementFails(w, call, sid);
      }
    case Sys(e) =>
      if Retests(w, e) {
        RetestIs(w, e);
        PKeeps(w, e, M.RemoveFront);
      } else if Elsewhere(w.k, ViewOf(w), e) {
        SysKeeps(w, e);
      }
  }

  lemma TestsNow<T>(w: Hosted<T>)
    requires Coupled(w) && w.k.cpu.On? && w.k.current in w.m.pc && AtP(w.m.pc[w.k.current])
    ensures Tests(w.k, K.P(PSem(w, w.k.current)), PSem(w, w.k.current))
  {
    CoupledHosts(w);
    CoupledNames(w);
    hide Coupled, K.Inv, M.Inv, Hosts, ViewOf;
  }

  lemma LockIsMine<T>(w: Hosted<T>)
    requires Coupled(w)
    ensures w.lock in w.mine
  {
    CoupledNames(w);
    hide Coupled, M.Inv;
  }

  lemma StatementFails<T>(w: Hosted<T>, call: M.Call<T>, sid: Sid)
    requires Coupled(w) && w.k.cpu.On? && w.k.current in w.m.pc
    ensures RunStatement(w, call, sid).AssertFails? ==> MP.AddsTwice(w.m, w.k.current)
  {
    hide Coupled, Down, Up, Make, Then, PSem, Tests, MP.AddsTwice;
    LockIsMine(w);
    var pc := w.m.pc[w.k.current];
    if AtP(pc) {
      TestsNow(w);
      PKeeps(w, K.P(PSem(w, w.k.current)), call);
    } else if AtLockV(pc) {
      VKeeps(w, w.lock, call);
    } else if AtWake(pc) {
      TargetNamed(w);
      VKeeps(w, w.waiters[pc.waiter], call);
    } else if pc.WaitEnqueue? {
      MakeKeeps(w, sid, call);
    } else {
      PlainKeeps(w, call);
    }
  }

  /** Every act keeps the coupling, and is a step of the monitor, of the kernel, or of both. */
  lemma StatementProjects<T>(w: Hosted<T>, call: M.Call<T>, sid: Sid)
    returns (moves: seq<M.Move<T>>, events: seq<K.Event>)
    requires Coupled(w) && w.k.cpu.On? && w.k.current in w.m.pc && RunStatement(w, call, sid).Next?
    ensures Coupled(RunStatement(w, call, sid).state) && Projects(w, RunStatement(w, call, sid).state, moves, events)
  {
    hide Coupled, Down, Up, Make, Then, PSem, Tests, Projects, K.Step, Follower;
    LockIsMine(w);
    var pc := w.m.pc[w.k.current];
    events := [];
    if AtP(pc) {
      TestsNow(w);
      PKeeps(w, K.P(PSem(w, w.k.current)), call);
      events := [K.P(PSem(w, w.k.current))];
    } else if AtLockV(pc) {
      VKeeps(w, w.lock, call);
      events := [K.V(w.lock)];
    } else if AtWake(pc) {
      TargetNamed(w);
      VKeeps(w, w.waiters[pc.waiter], call);
      events := [K.V(w.waiters[pc.waiter])];
    } else if pc.WaitEnqueue? {
      MakeKeeps(w, sid, call);
      events := [K.NewSemaphore(sid, 0)];
    } else {
      PlainKeeps(w, call);
    }
    moves := Projection(w, RunStatement(w, call, sid).state, call, events);
  }

  lemma StepProjects<T>(w: Hosted<T>, a: Act<T>) returns (moves: seq<M.Move<T>>, events: seq<K.Event>)
    requires Coupled(w) && Step(w, a).Next?
    ensures Coupled(Step(w, a).state) && Projects(w, Step(w, a).state, moves, events)
  {
    hide Coupled, Down, RunStatement, K.Step, Elsewhere, ViewOf, PSem, Projects, Follower, Tests, AtP;
    match a
    case Run(call, sid) =>
      moves, events := StatementProjects(w, call, sid);
    case Sys(e) =>
      events := [e];
      if Retests(w, e) {
        RetestIs(w, e);
        PKeeps(w, e, M.RemoveFront);
      } else {
        SysKeeps(w, e);
        StaysPut(w, Step(w, a).state.k, M.RemoveFront);
      }
      moves := Projection(w, Step(w, a).state, M.RemoveFront, events);
  }

  lemma MonitorAppends<T>(m: M.Mon<T>, schedule: seq<M.Move<T>>, m': M.Mon<T>, moves: seq<M.Move<T>>, m'': M.Mon<T>)
    requires M.Exec(m, schedule) == Next(m')
    requires (moves == [] && m'' == m') || (|moves| == 1 && M.Step(m', moves[0].thread, moves[0].call) == Next(m''))
    ensures M.Exec(m, schedule + moves) == Next(m'')
  {
    hide M.Step;
    if moves == [] {
      assert schedule + moves == schedule;
    } else {
      var more := schedule + moves;
      assert more[..|more| - 1] == schedule;
    }
  }

  /** Any run of threads using the list on the kernel is, seen from the list, a run of the monitor and, seen from the
      kernel, a run of the kernel; so everything proved of those holds of it.  The only ASSERT it can fail is that of
      List::Append on a duplicate. */
  lemma {:induction false} RunProjects<T>(w: Hosted<T>, run: seq<Act<T>>, w': Hosted<T>)
    returns (schedule: seq<M.Move<T>>, events: seq<K.Event>)
    requires Initial(w) && Exec(w, run) == Next(w')
    ensures Coupled(w') && M.Exec(w.m, schedule) == Next(w'.m) && K.Exec(w.k, events) == Next(w'.k)
  {
    hide Initial, Coupled, Step, K.Step, M.Step;
    if run == [] {
      InitialCoupled(w);
      schedule, events := [], [];
    } else {
      var before := Exec(w, run[..|run| - 1]).state;
      schedule, events := RunProjects(w, run[..|run| - 1], before);
      var moves, more := StepProjects(before, run[|run| - 1]);
      MonitorAppends(w.m, schedule, before.m, moves, w'.m);
      KernelAppends(w.k, events, before.k, more, w'.k);
      schedule, events := schedule + moves, events + more;
    }
  }

  /** Such a run fails an ASSERT exactly when a thread appends an item already listed. */
  lemma FailsOnlyOnDuplicate<T>(w: Hosted<T>, run: seq<Act<T>>, w': Hosted<T>, a: Act<T>)
    requires Initial(w) && Exec(w, run) == Next(w')
    ensures Step(w', a).AssertFails? <==> a.Run? && w'.k.cpu.On? && MP.AddsTwice(w'.m, w'.k.current)
  {
    var schedule, events := RunProjects(w, run, w');
    hide Initial, Exec, Coupled, Step, MP.AddsTwice;
    StepFails(w', a);
    if a.Run? && w'.k.cpu.On? && MP.AddsTwice(w'.m, w'.k.current) {
      DuplicateFails(w', a);
    }
  }

  lemma DuplicateFails<T>(w: Hosted<T>, a: Act<T>)
    requires a.Run? && w.k.cpu.On? && MP.AddsTwice(w.m, w.k.current)
    ensures Step(w, a).AssertFails?
  {
    hide Down, Up, Make, K.Step;
  }

  /** So the list is in a reachable state of the monitor: mutual exclusion, first in first out and no lost signal. */
  lemma ListIsReachable<T(!new)>(w: Hosted<T>, run: seq<Act<T>>, w': Hosted<T>)
    requires Initial(w) && Exec(w, run) == Next(w')
    ensures MT.Reachable(w'.m) && w'.lock in w'.k.sems && w'.k.sems[w'.lock].value == w'.m.value
  {
    var schedule, events := RunProjects(w, run, w');
    assert M.Initial(w.m);
    CoupledNames(w');
    hide Initial, Exec, Coupled, M.Exec, K.Exec, M.Initial;
  }

  /** There are such runs: boot, and make the list. */
  lemma Booted<T>(main: Tid, lock: Sid, threads: set<Tid>)
    ensures var k := K.Step(K.Boot(main), K.NewSemaphore(lock, 1)).state;
            var m: M.Mon<T> := M.Mon(1, None, [], map[], [], map t | t in threads :: M.Idle, [], []);
            Initial(Hosted(k, m, lock, map[], {lock}))
  {
    KP.BootInv(main);
    KP.NewSemaphoreKeeps(K.Boot(main), lock, 1);
  }

  // ----- no deadlock -----

  ghost predicate AllOut<T>(m: M.Mon<T>) {
    forall t :: t in m.pc ==> m.pc[t].Idle? || (m.pc[t].WaitSleep? && t in m.waitQueue)
  }

  /** Every thread is outside the list or at a P. */
  ghost predicate AllAtP<T>(m: M.Mon<T>) { forall t :: t in m.pc ==> m.pc[t].Idle? || AtP(m.pc[t]) }

  lemma HaltedAtP<T>(w: Hosted<T>)
    requires Coupled(w) && Halted(w.k)
    ensures AllAtP(w.m)
  {
    CoupledHosts(w);
    hide Coupled, K.Inv, Hosts, Halted, AtP;
    forall t | t in w.m.pc ensures w.m.pc[t].Idle? || AtP(w.m.pc[t]) {
      HaltedHosts(w.k, ViewOf(w), t);
    }
  }

  lemma HaltedZero<T>(w: Hosted<T>, t: Tid)
    requires Coupled(w) && Halted(w.k) && t in w.m.pc && AtP(w.m.pc[t])
    ensures PSem(w, t) in w.k.sems && w.k.sems[PSem(w, t)].value == 0
  {
    hide *;
    CoupledHosts(w);
    WantsIs(w, t);
    HaltedHosts(w.k, ViewOf(w), t);
  }

  lemma LockFree<T>(m: M.Mon<T>)
    requires M.Inv(m) && AllAtP(m)
    ensures m.value == 1
  {
    hide M.Waiting, M.Listed, M.Claimed, M.Broadcasting;
    forall t | t in m.pc ensures M.Phases(m.pc)[t].Outside? {
    }
  }

  /** A waiter whose semaphore is zero is still queued if nobody is about to raise it. */
  lemma StillQueued<T>(m: M.Mon<T>, t: Tid)
    requires M.Inv(m) && AllAtP(m) && t in m.pc && m.pc[t].WaitSleep? && t in m.waiter && m.waiter[t] == 0
    ensures t in m.waitQueue
  {
    hide M.Locked, M.Listed, M.Claimed, M.Broadcasting, Distinct;
    assert forall u, w :: u in m.pc ==> !M.Wakes(m.pc[u], w);
    assert !M.Coming(m, t);
  }

  lemma ZeroWaiter<T>(w: Hosted<T>, t: Tid)
    requires M.Inv(w.m) && Named(w.m, w.lock, w.waiters, w.mine) && Valued(w.k, w.m, w.lock, w.waiters)
    requires t in w.m.pc && AtP(w.m.pc[t]) && w.m.value == 1
    requires PSem(w, t) in w.k.sems && w.k.sems[PSem(w, t)].value == 0
    ensures w.m.pc[t].WaitSleep? && t in w.m.waiter && w.m.waiter[t] == 0
  {
    if w.m.pc[t].WaitSleep? {
      SleeperNamed(w.m, w.lock, w.waiters, w.mine, t);
    }
    hide M.Inv;
  }

  lemma HaltedOut<T>(w: Hosted<T>)
    requires Coupled(w) && Halted(w.k)
    ensures M.Inv(w.m) && AllOut(w.m)
  {
    HaltedAtP(w);
    CoupledNames(w);
    hide Coupled, Halted, M.Inv, Named, Valued, PSem, AtP;
    LockFree(w.m);
    forall t | t in w.m.pc ensures w.m.pc[t].Idle? || (w.m.pc[t].WaitSleep? && t in w.m.waitQueue) {
      if AtP(w.m.pc[t]) {
        HaltedZero(w, t);
        ZeroWaiter(w, t);
        StillQueued(w.m, t);
      }
    }
  }

  /** With everybody out, nobody is on the way to an item, so no item waits for anybody. */
  lemma NoneOwed<T>(m: M.Mon<T>)
    requires M.Inv(m) && AllOut(m)
    ensures m.waitQueue != [] ==> m.list == []
  {
    hide M.Locked, M.Listed, M.Broadcasting, M.Raised, Distinct;
    assert M.Claims(m) == {};
  }

  /** When the kernel has nothing left to run, every thread is outside the list or waits on its condition variable, and
      none waits while there is an item: SynchList cannot deadlock. */
  lemma NoDeadlock<T>(w: Hosted<T>, run: seq<Act<T>>, w': Hosted<T>)
    requires Initial(w) && Exec(w, run) == Next(w') && Halted(w'.k)
    ensures forall t :: t in w'.m.pc ==> w'.m.pc[t].Idle? || (w'.m.pc[t].WaitSleep? && t in w'.m.waitQueue)
    ensures w'.m.waitQueue != [] ==> w'.m.list == []
  {
    hide Initial, Exec, Halted;
    var schedule, events := RunProjects(w, run, w');
    hide *;
    HaltedOut(w');
    NoneOwed(w'.m);
    OutIs(w'.m);
  }

  lemma OutIs<T>(m: M.Mon<T>)
    requires AllOut(m)
    ensures forall t :: t in m.pc ==> m.pc[t].Idle? || (m.pc[t].WaitSleep? && t in m.waitQueue)
  {
  }
}
