/** What the calls of SynchList::Append, RemoveFront and Broadcast came to, computed from the moves of a schedule
    (threads/synchlist.cc, threads/synch.cc). */
module MonitorHistory {
  import opened Base
  import opened Locks
  import opened Monitor
  import opened MonitorProofs
  import opened MonitorTheorems

  // ----- what a move does to the list -----

  datatype Effect<T> = Put(item: T) | Took(item: T)

  /** Read off the list before and after. */
  ghost function Change<T>(before: seq<T>, after: seq<T>): seq<Effect<T>> {
    if |after| == |before| + 1 then [Put(after[|before|])]
    else if |after| + 1 == |before| then [Took(before[0])]
    else []
  }

  /** A list on which items are put at the end and taken from the front. */
  ghost predicate Queue<T>(before: seq<T>, effects: seq<Effect<T>>, after: seq<T>) {
    if effects == [] then after == before
    else |effects| == 1 && match effects[0]
                           case Put(x) => after == before + [x]
                           case Took(x) => before == [x] + after
  }

  // ----- the calls of one thread -----

  /** A call made by the move, if it is one on the list. */
  ghost function Entered<T>(m: Mon<T>, t: Tid, move: Move<T>): seq<Call<T>> {
    if move.thread == t && t in m.pc && m.pc[t].Idle? && !move.call.Broadcast? then [move.call] else []
  }

  /** The call a thread is in, as long as it has not done its work on the list. */
  ghost function Asked<T>(pc: Pc<T>): seq<Call<T>> {
    if pc.AppendLock? || pc.AppendOwn? || pc.AppendAdd? then [Append(pc.item)]
    else if pc.RemoveLock? || pc.RemoveOwn? || pc.RemoveTest? || pc.RemoveTake? || pc.WaitEnqueue? || BeforeSleep(pc)
            || AfterSleep(pc) then [RemoveFront]
    else []
  }

  ghost function CallsFor<T>(effects: seq<Effect<T>>): seq<Call<T>> {
    if effects == [] then []
    else
      var e := effects[|effects| - 1];
      CallsFor(effects[..|effects| - 1]) + [if e.Put? then Append(e.item) else RemoveFront]
  }

  /** The item a call of RemoveFront is about to return. */
  ghost function Carried<T>(pc: Pc<T>): seq<T> {
    if pc.RemoveDisown? || pc.RemoveUnlock? then [pc.item] else []
  }

  /** The item a move returns from RemoveFront. */
  ghost function ReturnedBy<T>(m: Mon<T>, t: Tid, move: Move<T>): seq<T> {
    if move.thread == t && t in m.pc && m.pc[t].RemoveUnlock? then [m.pc[t].item] else []
  }

  ghost function Items<T>(effects: seq<Effect<T>>, put: bool): seq<T> {
    if effects == [] then []
    else
      var e := effects[|effects| - 1];
      Items(effects[..|effects| - 1], put) + if e.Put? == put then [e.item] else []
  }

  // ----- along a schedule -----

  /** What thread t does to the list. */
  ghost function Deeds<T>(start: Mon<T>, schedule: seq<Move<T>>, t: Tid): seq<Effect<T>> {
    if schedule == [] then []
    else
      var (before, after) := (Exec(start, schedule[..|schedule| - 1]), Exec(start, schedule));
      Deeds(start, schedule[..|schedule| - 1], t)
      + if before.Next? && after.Next? && schedule[|schedule| - 1].thread == t
        then Change(before.state.list, after.state.list) else []
  }

  /** What all threads do to it, in order. */
  ghost function AllDeeds<T>(start: Mon<T>, schedule: seq<Move<T>>): seq<Effect<T>> {
    if schedule == [] then []
    else
      var (before, after) := (Exec(start, schedule[..|schedule| - 1]), Exec(start, schedule));
      AllDeeds(start, schedule[..|schedule| - 1])
      + if before.Next? && after.Next? then Change(before.state.list, after.state.list) else []
  }

  ghost function Calls<T>(start: Mon<T>, schedule: seq<Move<T>>, t: Tid): seq<Call<T>> {
    if schedule == [] then []
    else
      var before := Exec(start, schedule[..|schedule| - 1]);
      Calls(start, schedule[..|schedule| - 1], t)
      + if before.Next? then Entered(before.state, t, schedule[|schedule| - 1]) else []
  }

  ghost function Returned<T>(start: Mon<T>, schedule: seq<Move<T>>, t: Tid): seq<T> {
    if schedule == [] then []
    else
      var before := Exec(start, schedule[..|schedule| - 1]);
      Returned(start, schedule[..|schedule| - 1], t)
      + if before.Next? then ReturnedBy(before.state, t, schedule[|schedule| - 1]) else []
  }

  // ----- one move -----

  /** A move of thread t: the list is a queue, and the thread's call and its item are accounted for. */
  ghost predicate Accounted<T>(m: Mon<T>, move: Move<T>, m': Mon<T>) {
    var (t, effects) := (move.thread, Change(m.list, m'.list));
    && t in m.pc && t in m'.pc && m'.pc == m.pc[t := m'.pc[t]] && Queue(m.list, effects, m'.list)
    && m'.appended == m.appended + Items(effects, true) && m'.removed == m.removed + Items(effects, false)
    && Asked(m.pc[t]) + Entered(m, t, move) == CallsFor(effects) + Asked(m'.pc[t])
    && Carried(m.pc[t]) + Items(effects, false) == ReturnedBy(m, t, move) + Carried(m'.pc[t])
  }

  /** A move that leaves the list alone. */
  lemma QuietAccounted<T>(m: Mon<T>, move: Move<T>, m': Mon<T>)
    requires move.thread in m.pc && move.thread in m'.pc && m'.pc == m.pc[move.thread := m'.pc[move.thread]]
    requires m'.list == m.list && m'.appended == m.appended && m'.removed == m.removed
    requires !m.pc[move.thread].Idle? && Asked(m'.pc[move.thread]) == Asked(m.pc[move.thread])
    requires Carried(m.pc[move.thread]) == ReturnedBy(m, move.thread, move) + Carried(m'.pc[move.thread])
    ensures Accounted(m, move, m')
  {
    hide Asked, Carried, ReturnedBy;
  }

  lemma AppendAccounted<T>(m: Mon<T>, move: Move<T>)
    requires move.thread in m.pc && PcOfAppend(m.pc[move.thread]) && StepAppend(m, move.thread).Next?
    ensures Accounted(m, move, StepAppend(m, move.thread).state)
  {
    hide Accounted, StepAppend;
    if m.pc[move.thread].AppendAdd? {
      AddAccounted(m, move);
    } else {
      AppendQuiet(m, move.thread);
      QuietAccounted(m, move, StepAppend(m, move.thread).state);
    }
  }

  lemma AddAccounted<T>(m: Mon<T>, move: Move<T>)
    requires move.thread in m.pc && m.pc[move.thread].AppendAdd? && StepAppend(m, move.thread).Next?
    ensures Accounted(m, move, StepAppend(m, move.thread).state)
  {
  }

  lemma AppendQuiet<T>(m: Mon<T>, t: Tid)
    requires t in m.pc && PcOfAppend(m.pc[t]) && !m.pc[t].AppendAdd? && StepAppend(m, t).Next?
    ensures var m' := StepAppend(m, t).state;
            && t in m'.pc && m'.pc == m.pc[t := m'.pc[t]]
            && m'.list == m.list && m'.appended == m.appended && m'.removed == m.removed
            && Asked(m'.pc[t]) == Asked(m.pc[t]) && Carried(m.pc[t]) == [] == Carried(m'.pc[t])
  {
  }

  predicate PcOfRemove<T>(pc: Pc<T>) {
    pc.RemoveLock? || pc.RemoveOwn? || pc.RemoveTest? || pc.RemoveTake? || pc.RemoveDisown? || pc.RemoveUnlock?
  }

  lemma RemoveAccounted<T>(m: Mon<T>, move: Move<T>)
    requires move.thread in m.pc && PcOfRemove(m.pc[move.thread]) && StepRemove(m, move.thread).Next?
    ensures Accounted(m, move, StepRemove(m, move.thread).state)
  {
    hide Accounted, StepRemove;
    if m.pc[move.thread].RemoveTake? {
      TakeAccounted(m, move);
    } else {
      RemoveQuiet(m, move);
      QuietAccounted(m, move, StepRemove(m, move.thread).state);
    }
  }

  lemma TakeAccounted<T>(m: Mon<T>, move: Move<T>)
    requires move.thread in m.pc && m.pc[move.thread].RemoveTake? && StepRemove(m, move.thread).Next?
    ensures Accounted(m, move, StepRemove(m, move.thread).state)
  {
  }

  lemma RemoveQuiet<T>(m: Mon<T>, move: Move<T>)
    requires var t := move.thread;
             t in m.pc && PcOfRemove(m.pc[t]) && !m.pc[t].RemoveTake? && StepRemove(m, t).Next?
    ensures var (t, m') := (move.thread, StepRemove(m, move.thread).state);
            && t in m'.pc && m'.pc == m.pc[t := m'.pc[t]]
            && m'.list == m.list && m'.appended == m.appended && m'.removed == m.removed
            && Asked(m'.pc[t]) == Asked(m.pc[t]) && Carried(m.pc[t]) == ReturnedBy(m, t, move) + Carried(m'.pc[t])
  {
  }

  lemma WaitAccounted<T>(m: Mon<T>, move: Move<T>)
    requires move.thread in m.pc && StepWait(m, move.thread).Next?
    ensures Accounted(m, move, StepWait(m, move.thread).state)
  {
  }

  lemma BroadcastAccounted<T>(m: Mon<T>, move: Move<T>)
    requires move.thread in m.pc && StepBroadcast(m, move.thread).Next?
    ensures Accounted(m, move, StepBroadcast(m, move.thread).state)
  {
    hide Accounted, StepBroadcast;
    BroadcastQuiet(m, move.thread);
    QuietAccounted(m, move, StepBroadcast(m, move.thread).state);
  }

  lemma BroadcastQuiet<T>(m: Mon<T>, t: Tid)
    requires t in m.pc && StepBroadcast(m, t).Next?
    ensures var m' := StepBroadcast(m, t).state;
            && t in m'.pc && m'.pc == m.pc[t := m'.pc[t]] && !m.pc[t].Idle? && !m.pc[t].RemoveUnlock?
            && m'.list == m.list && m'.appended == m.appended && m'.removed == m.removed
            && Asked(m'.pc[t]) == Asked(m.pc[t]) && Carried(m.pc[t]) == [] == Carried(m'.pc[t])
  {
    hide Asked, Carried;
    BroadcastGoes(m, t);
    NothingAsked(m.pc[t]);
    NothingAsked(StepBroadcast(m, t).state.pc[t]);
    hide StepBroadcast;
  }

  predicate PcOfBroadcast<T>(pc: Pc<T>) {
    pc.BroadLock? || pc.BroadOwn? || pc.BroadTest? || pc.BroadWake? || pc.BroadDisown? || pc.BroadUnlock?
  }

  lemma BroadcastGoes<T>(m: Mon<T>, t: Tid)
    requires t in m.pc && StepBroadcast(m, t).Next?
    ensures var m' := StepBroadcast(m, t).state;
            && t in m'.pc && m'.pc == m.pc[t := m'.pc[t]]
            && m'.list == m.list && m'.appended == m.appended && m'.removed == m.removed
            && PcOfBroadcast(m.pc[t]) && (PcOfBroadcast(m'.pc[t]) || m'.pc[t].Idle?)
  {
  }

  lemma NothingAsked<T>(pc: Pc<T>)
    requires PcOfBroadcast(pc) || pc.Idle?
    ensures Asked(pc) == [] && Carried(pc) == []
  {
  }

  lemma IdleAccounted<T>(m: Mon<T>, move: Move<T>)
    requires move.thread in m.pc && m.pc[move.thread].Idle? && Step(m, move.thread, move.call).Next?
    ensures Accounted(m, move, Step(m, move.thread, move.call).state)
  {
  }

  lemma StepAccounted<T>(m: Mon<T>, move: Move<T>)
    requires Step(m, move.thread, move.call).Next?
    ensures Accounted(m, move, Step(m, move.thread, move.call).state)
  {
    hide Accounted, StepAppend, StepRemove, StepWait, StepBroadcast;
    var pc := m.pc[move.thread];
    if pc.Idle? {
      IdleAccounted(m, move);
    } else if PcOfRemove(pc) {
      RemoveAccounted(m, move);
    } else if PcOfAppend(pc) {
      AppendAccounted(m, move);
    } else if BeforeSleep(pc) || AfterSleep(pc) || pc.WaitEnqueue? {
      WaitAccounted(m, move);
    } else {
      BroadcastAccounted(m, move);
    }
  }

  // ----- whole schedules -----

  lemma CallsForAppend<T>(a: seq<Effect<T>>, b: seq<Effect<T>>)
    requires |b| <= 1
    ensures CallsFor(a + b) == CallsFor(a) + CallsFor(b)
    ensures forall put: bool :: Items(a + b, put) == Items(a, put) + Items(b, put)
  {
    if b == [] {
      assert a + b == a;
    } else {
      assert b == [b[0]] && (a + b)[..|a|] == a;
    }
  }

  /** The thread's part in the last move. */
  lemma LastMove<T>(start: Mon<T>, schedule: seq<Move<T>>, m: Mon<T>, t: Tid)
    requires schedule != [] && Exec(start, schedule) == Next(m)
    ensures var (front, move) := (schedule[..|schedule| - 1], schedule[|schedule| - 1]);
            && Exec(start, front).Next?
            && var before := Exec(start, front).state;
               && Step(before, move.thread, move.call) == Next(m)
               && Deeds(start, schedule, t)
                  == Deeds(start, front, t) + (if move.thread == t then Change(before.list, m.list) else [])
               && Calls(start, schedule, t) == Calls(start, front, t) + Entered(before, t, move)
               && Returned(start, schedule, t) == Returned(start, front, t) + ReturnedBy(before, t, move)
               && AllDeeds(start, schedule) == AllDeeds(start, front) + Change(before.list, m.list)
  {
    hide Step, Change, Entered, ReturnedBy;
  }

  /** For every schedule and every thread: its calls of Append and RemoveFront, in order, are what it did to the list,
      in order, each Append having put its own item and each RemoveFront having taken the item then at the front,
      followed by the call it is in if that has not got so far; and what its RemoveFronts returned is what they took.
      A call of Broadcast does nothing to the list. */
  lemma {:induction false} CallsServed<T>(start: Mon<T>, schedule: seq<Move<T>>, m: Mon<T>, t: Tid)
    requires Initial(start) && Exec(start, schedule) == Next(m) && t in start.pc
    ensures t in m.pc && Calls(start, schedule, t) == CallsFor(Deeds(start, schedule, t)) + Asked(m.pc[t])
    ensures Items(Deeds(start, schedule, t), false) == Returned(start, schedule, t) + Carried(m.pc[t])
  {
    if schedule == [] {
    } else {
      hide *;
      var (front, move) := (schedule[..|schedule| - 1], schedule[|schedule| - 1]);
      LastMove(start, schedule, m, t);
      var before := Exec(start, front).state;
      CallsServed(start, front, before, t);
      StepAccounted(before, move);
      if move.thread == t {
        OwnMove(before, move, m);
        var (effects, deeds) := (Change(before.list, m.list), Deeds(start, front, t));
        CallsForAppend(deeds, effects);
        Carry(Calls(start, front, t), CallsFor(deeds), Asked(before.pc[t]), Entered(before, t, move),
              CallsFor(effects), Asked(m.pc[t]));
        Carry(Items(deeds, false), Returned(start, front, t), Carried(before.pc[t]), Items(effects, false),
              ReturnedBy(before, t, move), Carried(m.pc[t]));
      } else {
        OtherMove(before, move, m, t);
        assert Calls(start, front, t) + [] == Calls(start, front, t);
        assert Deeds(start, front, t) + [] == Deeds(start, front, t);
        assert Returned(start, front, t) + [] == Returned(start, front, t);
      }
    }
  }

  lemma OwnMove<T>(m: Mon<T>, move: Move<T>, m': Mon<T>)
    requires Accounted(m, move, m')
    ensures var (t, effects) := (move.thread, Change(m.list, m'.list));
            && t in m.pc && t in m'.pc && |effects| <= 1
            && Asked(m.pc[t]) + Entered(m, t, move) == CallsFor(effects) + Asked(m'.pc[t])
            && Carried(m.pc[t]) + Items(effects, false) == ReturnedBy(m, t, move) + Carried(m'.pc[t])
  {
    hide CallsFor, Items, Asked, Carried, Entered, ReturnedBy;
  }

  lemma OtherMove<T>(m: Mon<T>, move: Move<T>, m': Mon<T>, t: Tid)
    requires Accounted(m, move, m') && move.thread != t && t in m.pc
    ensures t in m'.pc && m'.pc[t] == m.pc[t] && Entered(m, t, move) == [] && ReturnedBy(m, t, move) == []
  {
    hide CallsFor, Items, Asked, Carried;
  }

  /** All the items put, in order, are all the items taken, in order, followed by the list. */
  lemma {:induction false} AllInOrder<T>(start: Mon<T>, schedule: seq<Move<T>>, m: Mon<T>)
    requires Initial(start) && Exec(start, schedule) == Next(m)
    ensures Items(AllDeeds(start, schedule), true) == Items(AllDeeds(start, schedule), false) + m.list
    ensures m.appended == Items(AllDeeds(start, schedule), true) && m.removed == Items(AllDeeds(start, schedule), false)
  {
    if schedule == [] {
    } else {
      hide *;
      var (front, move) := (schedule[..|schedule| - 1], schedule[|schedule| - 1]);
      LastMove(start, schedule, m, move.thread);
      var before := Exec(start, front).state;
      AllInOrder(start, front, before);
      StepAccounted(before, move);
      var (effects, deeds) := (Change(before.list, m.list), AllDeeds(start, front));
      QueueMoves(before, move, m);
      CallsForAppend(deeds, effects);
      Carry(Items(deeds, true), Items(deeds, false), before.list, Items(effects, true), Items(effects, false), m.list);
    }
  }

  lemma QueueMoves<T>(m: Mon<T>, move: Move<T>, m': Mon<T>)
    requires Accounted(m, move, m')
    ensures var effects := Change(m.list, m'.list);
            && |effects| <= 1 && m.list + Items(effects, true) == Items(effects, false) + m'.list
            && m'.appended == m.appended + Items(effects, true) && m'.removed == m.removed + Items(effects, false)
  {
    hide CallsFor, Asked, Carried, Entered, ReturnedBy;
    var effects := Change(m.list, m'.list);
    assert effects != [] ==> effects[..0] == [];
  }

  // ----- waiters are signalled in the order they began to wait -----

  predicate AtWake<T>(pc: Pc<T>) { pc.AppendWake? || pc.BroadWake? }

  /** The waiter the holder of the lock has taken off the queue and is about to raise. */
  ghost function InFlight<T>(m: Mon<T>): seq<Tid> {
    if m.holder.Some? && m.holder.value in m.pc && AtWake(m.pc[m.holder.value])
    then [m.pc[m.holder.value].waiter] else []
  }

  ghost function Joins<T>(m: Mon<T>, t: Tid): seq<Tid> { if t in m.pc && m.pc[t].WaitEnqueue? then [t] else [] }

  ghost predicate Raised<T>(m: Mon<T>, w: Tid, m': Mon<T>) {
    w in m.waiter && w in m'.waiter && m'.waiter[w] == m.waiter[w] + 1
  }

  /** The waiter whose semaphore the move of t raises. */
  ghost function Raises<T>(m: Mon<T>, t: Tid, m': Mon<T>): seq<Tid> {
    if t in m.pc && AtWake(m.pc[t]) && Raised(m, m.pc[t].waiter, m') then [m.pc[t].waiter] else []
  }

  ghost function Waited<T>(start: Mon<T>, schedule: seq<Move<T>>): seq<Tid> {
    if schedule == [] then []
    else
      var before := Exec(start, schedule[..|schedule| - 1]);
      Waited(start, schedule[..|schedule| - 1])
      + if before.Next? then Joins(before.state, schedule[|schedule| - 1].thread) else []
  }

  ghost function Signals<T>(start: Mon<T>, schedule: seq<Move<T>>): seq<Tid> {
    if schedule == [] then []
    else
      var (before, after) := (Exec(start, schedule[..|schedule| - 1]), Exec(start, schedule));
      Signals(start, schedule[..|schedule| - 1])
      + if before.Next? && after.Next? then Raises(before.state, schedule[|schedule| - 1].thread, after.state) else []
  }

  /** What a move does to the holder, the queue and the waiters. */
  ghost predicate Turns<T>(m: Mon<T>, t: Tid, m': Mon<T>)
    requires t in m.pc
  {
    var pc := m.pc[t];
    && t in m'.pc && m'.pc == m.pc[t := m'.pc[t]]
    && (PhaseOf(pc).Outside? || PhaseOf(pc).Releasing? ==> m'.holder == m.holder && !AtWake(m'.pc[t]))
    && (PhaseOf(pc).Taken? ==> m'.holder == Some(t) && !AtWake(m'.pc[t]))
    && (PhaseOf(pc).Held? ==> m'.holder == m.holder || m'.holder == None)
    && (if AtWake(pc) then m'.waitQueue == m.waitQueue && m'.holder == m.holder && !AtWake(m'.pc[t])
                           && Raised(m, pc.waiter, m')
        else if AtWake(m'.pc[t])
        then m.waitQueue == [m'.pc[t].waiter] + m'.waitQueue && m'.holder == m.holder && Joins(m, t) == []
        else m'.waitQueue == m.waitQueue + Joins(m, t))
  }

  lemma AppendTurns<T>(m: Mon<T>, t: Tid)
    requires t in m.pc && PcOfAppend(m.pc[t]) && StepAppend(m, t).Next?
    ensures Turns(m, t, StepAppend(m, t).state)
  {
  }

  lemma RemoveTurns<T>(m: Mon<T>, t: Tid)
    requires t in m.pc && PcOfRemove(m.pc[t]) && StepRemove(m, t).Next?
    ensures Turns(m, t, StepRemove(m, t).state)
  {
  }

  lemma WaitTurns<T>(m: Mon<T>, t: Tid)
    requires t in m.pc && StepWait(m, t).Next?
    ensures Turns(m, t, StepWait(m, t).state)
  {
  }

  lemma BroadcastTurns<T>(m: Mon<T>, t: Tid)
    requires t in m.pc && StepBroadcast(m, t).Next?
    ensures Turns(m, t, StepBroadcast(m, t).state)
  {
  }

  lemma IdleTurns<T>(m: Mon<T>, t: Tid, call: Call<T>)
    requires t in m.pc && m.pc[t].Idle? && Step(m, t, call).Next?
    ensures Turns(m, t, Step(m, t, call).state)
  {
  }

  lemma StepTurns<T>(m: Mon<T>, t: Tid, call: Call<T>)
    requires Step(m, t, call).Next?
    ensures t in m.pc && Turns(m, t, Step(m, t, call).state)
  {
    hide Turns, StepAppend, StepRemove, StepWait, StepBroadcast;
    var pc := m.pc[t];
    if pc.Idle? {
      IdleTurns(m, t, call);
    } else if PcOfRemove(pc) {
      RemoveTurns(m, t);
    } else if PcOfAppend(pc) {
      AppendTurns(m, t);
    } else if BeforeSleep(pc) || AfterSleep(pc) || pc.WaitEnqueue? {
      WaitTurns(m, t);
    } else {
      BroadcastTurns(m, t);
    }
  }

  /** Only the holder of the lock can be about to raise somebody. */
  lemma HoldersOnly<T>(m: Mon<T>, t: Tid)
    requires Locked(m) && t in m.pc
    ensures PhaseOf(m.pc[t]).Held? <==> m.holder == Some(t)
    ensures PhaseOf(m.pc[t]).Taken? ==> InFlight(m) == []
  {
    HolderIs(m, t);
    if PhaseOf(m.pc[t]).Taken? && m.holder.Some? && m.holder.value in m.pc {
      HolderIs(m, m.holder.value);
      Alone(m, t, m.holder.value);
    }
  }

  lemma WaitersMove<T>(m: Mon<T>, t: Tid, m': Mon<T>)
    requires Locked(m) && t in m.pc && Turns(m, t, m')
    ensures InFlight(m) + m.waitQueue + Joins(m, t) == Raises(m, t, m') + (InFlight(m') + m'.waitQueue)
  {
    HoldersOnly(m, t);
    hide Locked;
    if AtWake(m.pc[t]) {
      assert InFlight(m) == [m.pc[t].waiter] && InFlight(m') == [];
    } else if AtWake(m'.pc[t]) {
      assert InFlight(m) == [] && InFlight(m') == [m'.pc[t].waiter];
    } else {
      assert InFlight(m') == InFlight(m);
      assert InFlight(m) + m.waitQueue + Joins(m, t) == InFlight(m) + (m.waitQueue + Joins(m, t));
    }
  }

  /** For every schedule: the threads that began to wait, in that order, are those whose semaphores Signal and Broadcast
      have raised, in that order, followed by the one about to be raised and those still queued. */
  lemma {:induction false} WaitersInOrder<T>(start: Mon<T>, schedule: seq<Move<T>>, m: Mon<T>)
    requires Initial(start) && Exec(start, schedule) == Next(m)
    ensures Waited(start, schedule) == Signals(start, schedule) + (InFlight(m) + m.waitQueue)
  {
    if schedule == [] {
    } else {
      var (front, move) := (schedule[..|schedule| - 1], schedule[|schedule| - 1]);
      var before := Exec(start, front).state;
      assert Locked(before) by { InitialInv(start); RunKeeps(start, front); }
      assert Step(before, move.thread, move.call) == Next(m);
      hide Locked, Step, Initial, Joins, Raises, InFlight, Turns;
      WaitersInOrder(start, front, before);
      StepTurns(before, move.thread, move.call);
      WaitersMove(before, move.thread, m);
      Carry(Waited(start, front), Signals(start, front), InFlight(before) + before.waitQueue,
            Joins(before, move.thread), Raises(before, move.thread, m), InFlight(m) + m.waitQueue);
    }
  }

  // ----- calls of Broadcast -----

  /** How often t has called Broadcast, and how often that has ended. */
  ghost function Broadcasts<T>(start: Mon<T>, schedule: seq<Move<T>>, t: Tid, ended: bool): nat {
    if schedule == [] then 0
    else
      var (before, move) := (Exec(start, schedule[..|schedule| - 1]), schedule[|schedule| - 1]);
      Broadcasts(start, schedule[..|schedule| - 1], t, ended)
      + if before.Next? && move.thread == t && t in before.state.pc
           && (if ended then before.state.pc[t].BroadUnlock? else before.state.pc[t].Idle? && move.call.Broadcast?)
        then 1 else 0
  }

  lemma BroadcastStep<T>(m: Mon<T>, t: Tid, call: Call<T>, u: Tid)
    requires Step(m, t, call).Next? && u in m.pc
    ensures var m' := Step(m, t, call).state;
            && u in m'.pc
            && (if PcOfBroadcast(m.pc[u]) then 1 else 0) + (if t == u && m.pc[t].Idle? && call.Broadcast? then 1 else 0)
               == (if PcOfBroadcast(m'.pc[u]) then 1 else 0) + (if t == u && m.pc[t].BroadUnlock? then 1 else 0)
  {
    hide StepAppend, StepRemove, StepWait, StepBroadcast;
    var pc := m.pc[t];
    if pc.Idle? {
    } else if PcOfRemove(pc) {
      RemoveBroadcasts(m, t);
    } else if PcOfAppend(pc) {
      AppendBroadcasts(m, t);
    } else if BeforeSleep(pc) || AfterSleep(pc) || pc.WaitEnqueue? {
      WaitBroadcasts(m, t);
    } else {
      BroadcastEnds(m, t);
    }
  }

  lemma RemoveBroadcasts<T>(m: Mon<T>, t: Tid)
    requires t in m.pc && PcOfRemove(m.pc[t]) && StepRemove(m, t).Next?
    ensures var m' := StepRemove(m, t).state; t in m'.pc && m'.pc == m.pc[t := m'.pc[t]] && !PcOfBroadcast(m'.pc[t])
  {
  }

  lemma AppendBroadcasts<T>(m: Mon<T>, t: Tid)
    requires t in m.pc && PcOfAppend(m.pc[t]) && StepAppend(m, t).Next?
    ensures var m' := StepAppend(m, t).state; t in m'.pc && m'.pc == m.pc[t := m'.pc[t]] && !PcOfBroadcast(m'.pc[t])
  {
  }

  lemma WaitBroadcasts<T>(m: Mon<T>, t: Tid)
    requires t in m.pc && StepWait(m, t).Next?
    ensures var m' := StepWait(m, t).state; t in m'.pc && m'.pc == m.pc[t := m'.pc[t]] && !PcOfBroadcast(m'.pc[t])
  {
  }

  lemma BroadcastEnds<T>(m: Mon<T>, t: Tid)
    requires t in m.pc && StepBroadcast(m, t).Next?
    ensures var m' := StepBroadcast(m, t).state;
            && t in m'.pc && m'.pc == m.pc[t := m'.pc[t]]
            && (PcOfBroadcast(m'.pc[t]) <==> !m.pc[t].BroadUnlock?) && PcOfBroadcast(m.pc[t])
  {
  }

  /** Every call of Broadcast, and nothing else, runs Broadcast to its end, or is in it. */
  lemma {:induction false} BroadcastsServed<T>(start: Mon<T>, schedule: seq<Move<T>>, m: Mon<T>, t: Tid)
    requires Initial(start) && Exec(start, schedule) == Next(m) && t in start.pc
    ensures t in m.pc
    ensures Broadcasts(start, schedule, t, false)
         == Broadcasts(start, schedule, t, true) + if PcOfBroadcast(m.pc[t]) then 1 else 0
  {
    if schedule == [] {
    } else {
      hide Initial, Step, PcOfBroadcast;
      var (front, move) := (schedule[..|schedule| - 1], schedule[|schedule| - 1]);
      var before := Exec(start, front).state;
      BroadcastsServed(start, front, before, t);
      BroadcastStep(before, move.thread, move.call, t);
    }
  }
}
