/** Condition variables and the synchronized list (threads/synch.cc,
    threads/synchlist.cc): any number of threads, each calling
    SynchList::Append, SynchList::RemoveFront or Condition::Broadcast in any order,
    interleaved after every statement. */
module Monitor {
  import opened Base
  import opened Locks

  /** The next statement of a thread.  A waiter semaphore is named by the thread
      that allocated it in Condition::Wait. */
  datatype Pc<T> =
    | Idle
    // SynchList::Append
    | AppendLock(item: T)
    | AppendOwn(item: T)
    | AppendAdd(item: T)
    | AppendSignal
    | AppendWake(waiter: Tid)
    | AppendDisown
    | AppendUnlock
    // SynchList::RemoveFront
    | RemoveLock
    | RemoveOwn
    | RemoveTest
    | RemoveTake
    | RemoveDisown(item: T)
    | RemoveUnlock(item: T)
    // Condition::Wait, called by RemoveFront
    | WaitEnqueue
    | WaitDisown
    | WaitUnlock
    | WaitSleep
    | WaitLock
    | WaitOwn
    | WaitFree
    // Condition::Broadcast between Acquire and Release; `start` is the wait queue
    // at the call and `woken` what has been signalled so far
    | BroadLock
    | BroadOwn
    | BroadTest(start: seq<Tid>, woken: seq<Tid>)
    | BroadWake(waiter: Tid, start: seq<Tid>, woken: seq<Tid>)
    | BroadDisown(start: seq<Tid>, woken: seq<Tid>)
    | BroadUnlock

  /** What an idle thread does next. */
  datatype Call<T> = Append(item: T) | RemoveFront | Broadcast

  datatype Mon<T> = Mon(
    value: int,               // lock->semaphore->value
    holder: Option<Tid>,      // lock->lockHolder
    waitQueue: seq<Tid>,      // listEmpty->waitQueue
    waiter: map<Tid, int>,    // values of the live waiter semaphores
    list: seq<T>,
    pc: map<Tid, Pc<T>>,
    appended: seq<T>,         // history: everything appended, in order
    removed: seq<T>)          // history: everything removed, in order

  ghost predicate Initial<T>(m: Mon<T>) {
    && m.value == 1 && m.holder.None? && m.waitQueue == [] && m.waiter == map[]
    && m.list == m.appended == m.removed == []
    && forall t :: t in m.pc ==> m.pc[t].Idle?
  }

  function Goto<T>(m: Mon<T>, t: Tid, pc: Pc<T>): Mon<T> {
    m.(pc := m.pc[t := pc])
  }

  /** P on the lock's semaphore. */
  function Acquire<T>(m: Mon<T>, t: Tid, pc: Pc<T>): Outcome<Mon<T>> {
    if m.value > 0 then Next(Goto(m.(value := m.value - 1), t, pc)) else Disabled
  }

  /** lockHolder = currentThread. */
  function Own<T>(m: Mon<T>, t: Tid, pc: Pc<T>): Outcome<Mon<T>> {
    Next(Goto(m.(holder := Some(t)), t, pc))
  }

  /** ASSERT(IsHeldByCurrentThread()); lockHolder = NULL. */
  function Disown<T>(m: Mon<T>, t: Tid, pc: Pc<T>): Outcome<Mon<T>> {
    if m.holder != Some(t) then AssertFails else Next(Goto(m.(holder := None), t, pc))
  }

  /** V on the lock's semaphore. */
  function Unlock<T>(m: Mon<T>, t: Tid, pc: Pc<T>): Outcome<Mon<T>> {
    Next(Goto(m.(value := m.value + 1), t, pc))
  }

  /** V on a waiter semaphore, which must not have been deleted. */
  function Wake<T>(m: Mon<T>, t: Tid, w: Tid, pc: Pc<T>): Outcome<Mon<T>> {
    if w !in m.waiter then AssertFails
    else Next(Goto(m.(waiter := m.waiter[w := m.waiter[w] + 1]), t, pc))
  }

  function StepAppend<T(==)>(m: Mon<T>, t: Tid): Outcome<Mon<T>>
    requires t in m.pc
  {
    match m.pc[t]
    case AppendLock(item) => Acquire(m, t, AppendOwn(item))
    case AppendOwn(item) => Own(m, t, AppendAdd(item))
    case AppendAdd(item) =>
      if item in m.list then AssertFails  // List::Append refuses a duplicate
      else Next(Goto(m.(list := m.list + [item], appended := m.appended + [item]), t, AppendSignal))
    case AppendSignal =>
      if m.holder != Some(t) then AssertFails
      else if m.waitQueue == [] then Next(Goto(m, t, AppendDisown))
      else Next(Goto(m.(waitQueue := m.waitQueue[1..]), t, AppendWake(m.waitQueue[0])))
    case AppendWake(w) => Wake(m, t, w, AppendDisown)
    case AppendDisown => Disown(m, t, AppendUnlock)
    case AppendUnlock => Unlock(m, t, Idle)
    case _ => Disabled
  }

  function StepRemove<T>(m: Mon<T>, t: Tid): Outcome<Mon<T>>
    requires t in m.pc
  {
    match m.pc[t]
    case RemoveLock => Acquire(m, t, RemoveOwn)
    case RemoveOwn => Own(m, t, RemoveTest)
    case RemoveTest => Next(Goto(m, t, if m.list == [] then WaitEnqueue else RemoveTake))
    case RemoveTake =>
      if m.list == [] then AssertFails
      else Next(Goto(m.(list := m.list[1..], removed := m.removed + [m.list[0]]), t, RemoveDisown(m.list[0])))
    case RemoveDisown(item) => Disown(m, t, RemoveUnlock(item))
    case RemoveUnlock(_) => Unlock(m, t, Idle)  // returns the item
    case _ => Disabled
  }

  function StepWait<T>(m: Mon<T>, t: Tid): Outcome<Mon<T>>
    requires t in m.pc
  {
    match m.pc[t]
    case WaitEnqueue =>
      if m.holder != Some(t) || t in m.waitQueue then AssertFails
      else Next(Goto(m.(waiter := m.waiter[t := 0], waitQueue := m.waitQueue + [t]), t, WaitDisown))
    case WaitDisown => Disown(m, t, WaitUnlock)
    case WaitUnlock => Unlock(m, t, WaitSleep)
    case WaitSleep =>
      if t !in m.waiter then AssertFails
      else if m.waiter[t] > 0 then Next(Goto(m.(waiter := m.waiter[t := m.waiter[t] - 1]), t, WaitLock))
      else Disabled
    case WaitLock => Acquire(m, t, WaitOwn)
    case WaitOwn => Own(m, t, WaitFree)
    case WaitFree => Next(Goto(m.(waiter := m.waiter - {t}), t, RemoveTest))
    case _ => Disabled
  }

  function StepBroadcast<T>(m: Mon<T>, t: Tid): Outcome<Mon<T>>
    requires t in m.pc
  {
    match m.pc[t]
    case BroadLock => Acquire(m, t, BroadOwn)
    case BroadOwn => Own(m, t, BroadTest(m.waitQueue, []))
    case BroadTest(start, woken) =>
      if m.waitQueue == [] then Next(Goto(m, t, BroadDisown(start, woken)))
      else if m.holder != Some(t) then AssertFails
      else Next(Goto(m.(waitQueue := m.waitQueue[1..]), t, BroadWake(m.waitQueue[0], start, woken)))
    case BroadWake(w, start, woken) => Wake(m, t, w, BroadTest(start, woken + [w]))
    case BroadDisown(_, _) => Disown(m, t, BroadUnlock)
    case BroadUnlock => Unlock(m, t, Idle)
    case _ => Disabled
  }

  /** Thread `t` executes its next statement; an idle thread makes `call`. */
  function Step<T(==)>(m: Mon<T>, t: Tid, call: Call<T>): Outcome<Mon<T>> {
    if t !in m.pc then Disabled
    else match m.pc[t]
      case Idle => Next(Goto(m, t, match call
                                   case Append(item) => AppendLock(item)
                                   case RemoveFront => RemoveLock
                                   case Broadcast => BroadLock))
      case AppendLock(_) | AppendOwn(_) | AppendAdd(_) | AppendSignal
         | AppendWake(_) | AppendDisown | AppendUnlock => StepAppend(m, t)
      case RemoveLock | RemoveOwn | RemoveTest | RemoveTake | RemoveDisown(_) | RemoveUnlock(_) => StepRemove(m, t)
      case WaitEnqueue | WaitDisown | WaitUnlock | WaitSleep | WaitLock | WaitOwn | WaitFree => StepWait(m, t)
      case BroadLock | BroadOwn | BroadTest(_, _) | BroadWake(_, _, _) | BroadDisown(_, _) | BroadUnlock =>
        StepBroadcast(m, t)
  }

  datatype Move<T> = Move(thread: Tid, call: Call<T>)

  /** The state after a schedule every move of which is enabled. */
  function Exec<T(==)>(m: Mon<T>, schedule: seq<Move<T>>): Outcome<Mon<T>> {
    if schedule == [] then Next(m)
    else
      var before := Exec(m, schedule[..|schedule| - 1]);
      var move := schedule[|schedule| - 1];
      if before.Next? then Step(before.state, move.thread, move.call) else before
  }

  // ----- invariants -----

  function PhaseOf<T>(pc: Pc<T>): Phase {
    match pc
    case Idle | AppendLock(_) | RemoveLock | WaitSleep | WaitLock | BroadLock => Outside
    case AppendOwn(_) | RemoveOwn | WaitOwn | BroadOwn => Taken
    case AppendUnlock | RemoveUnlock(_) | WaitUnlock | BroadUnlock => Releasing
    case _ => Held
  }

  function Phases<T>(pc: map<Tid, Pc<T>>): map<Tid, Phase> {
    map t | t in pc :: PhaseOf(pc[t])
  }

  ghost predicate Locked<T>(m: Mon<T>) {
    LockInv(m.value, m.holder, Phases(m.pc))
  }

  /** Between joining the wait queue and the end of P on the waiter semaphore. */
  predicate BeforeSleep<T>(pc: Pc<T>) {
    pc.WaitDisown? || pc.WaitUnlock? || pc.WaitSleep?
  }

  predicate AfterSleep<T>(pc: Pc<T>) {
    pc.WaitLock? || pc.WaitOwn? || pc.WaitFree?
  }

  predicate Wakes<T>(pc: Pc<T>, w: Tid) {
    (pc.AppendWake? && pc.waiter == w) || (pc.BroadWake? && pc.waiter == w)
  }

  /** Each waiter semaphore belongs to one waiting thread; the queue holds those
      not signalled yet. */
  ghost predicate Owned<T>(m: Mon<T>) {
    && Distinct(m.waitQueue)
    && (forall w :: w in m.waiter <==> w in m.pc && (BeforeSleep(m.pc[w]) || AfterSleep(m.pc[w])))
    && (forall w :: w in m.waitQueue ==> w in m.waiter && BeforeSleep(m.pc[w]) && m.waiter[w] == 0)
    && (forall w :: w in m.waiter && AfterSleep(m.pc[w]) ==> m.waiter[w] == 0)
  }

  /** Somebody is about to raise the semaphore of w. */
  ghost predicate Coming<T>(m: Mon<T>, w: Tid) {
    exists t :: t in m.pc && Wakes(m.pc[t], w)
  }

  /** A signalled waiter has been raised, or somebody is about to raise it. */
  ghost predicate Raised<T>(m: Mon<T>)
    requires Owned(m)
  {
    && (forall w :: w in m.waiter && BeforeSleep(m.pc[w]) && w !in m.waitQueue ==>
                      m.waiter[w] == 1 || (m.waiter[w] == 0 && Coming(m, w)))
    && (forall t, w :: t in m.pc && Wakes(m.pc[t], w) ==>
                         w in m.waiter && BeforeSleep(m.pc[w]) && w !in m.waitQueue && m.waiter[w] == 0)
  }

  ghost predicate Waiting<T>(m: Mon<T>) {
    Owned(m) && Raised(m)
  }

  ghost predicate Listed<T>(m: Mon<T>) {
    && m.appended == m.removed + m.list
    && (forall t :: t in m.pc && m.pc[t].RemoveTake? ==> m.list != [])
    && (forall t :: t in m.pc && m.pc[t].WaitEnqueue? ==> m.list == [])
  }

  /** Signalled and not yet back at the test of the list. */
  ghost predicate Signalled<T>(m: Mon<T>, t: Tid) {
    t in m.waiter && t !in m.waitQueue
  }

  predicate Deciding<T>(pc: Pc<T>) {
    pc.AppendSignal? || pc.RemoveTest? || pc.RemoveTake?
  }

  ghost function Claims<T>(m: Mon<T>): set<Tid> {
    set t | t in m.pc && (Signalled(m, t) || Deciding(m.pc[t]))
  }

  /** While a waiter is queued, every listed item is claimed. */
  ghost predicate Claimed<T>(m: Mon<T>) {
    m.waitQueue != [] ==> |m.list| <= |Claims(m)|
  }

  ghost predicate Broadcasting<T>(m: Mon<T>) {
    forall t :: t in m.pc ==>
                  match m.pc[t]
                  case BroadTest(start, woken) => start == woken + m.waitQueue
                  case BroadWake(w, start, woken) => start == woken + [w] + m.waitQueue
                  case BroadDisown(start, woken) => start == woken && m.waitQueue == []
                  case _ => true
  }

  ghost predicate Inv<T>(m: Mon<T>) {
    Locked(m) && Waiting(m) && Listed(m) && Claimed(m) && Broadcasting(m)
  }
}
