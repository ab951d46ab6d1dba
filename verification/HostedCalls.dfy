/** The calls of SynchList made by threads on the kernel, computed from their acts (threads/synchlist.cc). */
module HostedCalls {
  import opened Base
  import opened Hosting
  import opened MonitorOnKernel
  import K = Kernel
  import M = Monitor
  import H = MonitorHistory

  /** A call made by thread t, which is at no statement of SynchList when it makes it. */
  ghost function Makes<T>(w: Hosted<T>, t: Tid, a: Act<T>): seq<M.Call<T>> {
    if a.Run? && w.k.current == t && t in w.m.pc && w.m.pc[t].Idle? && !a.call.Broadcast? then [a.call] else []
  }

  ghost function Calls<T>(w: Hosted<T>, run: seq<Act<T>>, t: Tid): seq<M.Call<T>> {
    if run == [] then []
    else
      var before := Exec(w, run[..|run| - 1]);
      Calls(w, run[..|run| - 1], t) + if before.Next? then Makes(before.state, t, run[|run| - 1]) else []
  }

  /** What thread t does to the list while it is the current thread. */
  ghost function Deeds<T>(w: Hosted<T>, run: seq<Act<T>>, t: Tid): seq<H.Effect<T>> {
    if run == [] then []
    else
      var (before, after) := (Exec(w, run[..|run| - 1]), Exec(w, run));
      Deeds(w, run[..|run| - 1], t)
      + if before.Next? && after.Next? && before.state.k.current == t
        then H.Change(before.state.m.list, after.state.m.list) else []
  }

  lemma StatementFollows<T>(w: Hosted<T>, call: M.Call<T>, sid: Sid)
    requires Coupled(w) && w.k.cpu.On? && w.k.current in w.m.pc && RunStatement(w, call, sid).Next?
    ensures Follower(w, RunStatement(w, call, sid).state, call)
  {
    hide Coupled, Down, Up, Make, Then, PSem, Tests, K.Step, Follower;
    LockIsMine(w);
    var pc := w.m.pc[w.k.current];
    if AtP(pc) {
      TestsNow(w);
      PKeeps(w, K.P(PSem(w, w.k.current)), call);
    } else if AtLockV(pc) {
      VKeeps(w, w.lock, call);
    } else if MonitorOnKernel.AtWake(pc) {
      TargetNamed(w);
      VKeeps(w, w.waiters[pc.waiter], call);
    } else if pc.WaitEnqueue? {
      MakeKeeps(w, sid, call);
    } else {
      PlainKeeps(w, call);
    }
  }

  /** A call that is made moves the monitor. */
  lemma CallMoves<T>(w: Hosted<T>, call: M.Call<T>, sid: Sid)
    requires w.k.current in w.m.pc && w.m.pc[w.k.current].Idle? && RunStatement(w, call, sid).Next?
    ensures M.Step(w.m, w.k.current, call) == Next(RunStatement(w, call, sid).state.m)
  {
    hide M.Step;
  }

  /** An act moves the monitor by one statement of the current thread, entering the call it makes if it makes one, or
      leaves it. */
  lemma ActMoves<T>(w: Hosted<T>, a: Act<T>) returns (move: M.Move<T>)
    requires Coupled(w) && Step(w, a).Next?
    ensures move.thread == w.k.current
    ensures var m' := Step(w, a).state.m;
            || (m' == w.m && Makes(w, w.k.current, a) == [])
            || (M.Step(w.m, move.thread, move.call) == Next(m')
                && H.Entered(w.m, w.k.current, move) == Makes(w, w.k.current, a))
  {
    hide Coupled, Down, RunStatement, K.Step, M.Step, Elsewhere, ViewOf, PSem, Tests, AtP;
    match a
    case Run(call, sid) =>
      move := M.Move(w.k.current, call);
      if w.m.pc[w.k.current].Idle? {
        CallMoves(w, call, sid);
      } else {
        StatementFollows(w, call, sid);
      }
    case Sys(e) =>
      move := M.Move(w.k.current, M.RemoveFront);
      if Retests(w, e) {
        RetestIs(w, e);
        PKeeps(w, e, M.RemoveFront);
        NotIdle(w.m.pc[w.k.current]);
      }
  }

  lemma NotIdle<T>(pc: M.Pc<T>)
    requires AtP(pc)
    ensures !pc.Idle?
  {
  }

  lemma MakesOwn<T>(w: Hosted<T>, t: Tid, a: Act<T>)
    ensures t != w.k.current ==> Makes(w, t, a) == []
  {
  }

  lemma LastAct<T>(w: Hosted<T>, run: seq<Act<T>>, w': Hosted<T>, t: Tid)
    requires run != [] && Exec(w, run) == Next(w')
    ensures var (front, a) := (run[..|run| - 1], run[|run| - 1]);
            && Exec(w, front).Next?
            && var before := Exec(w, front).state;
               && Step(before, a) == Next(w')
               && Calls(w, run, t) == Calls(w, front, t) + Makes(before, t, a)
               && Deeds(w, run, t)
                  == Deeds(w, front, t) + (if before.k.current == t then H.Change(before.m.list, w'.m.list) else [])
  {
    hide Step, Makes, H.Change;
  }

  lemma NoChange<T>(list: seq<T>)
    ensures H.Change(list, list) == []
  {
  }

  lemma StartIdle<T>(w: Hosted<T>, t: Tid)
    requires Initial(w) && t in w.m.pc
    ensures H.Asked(w.m.pc[t]) == []
  {
  }

  /** What an act adds to a thread's calls, it adds to its deeds and to the call it is in. */
  lemma OwnServed<T>(m: M.Mon<T>, move: M.Move<T>, m': M.Mon<T>, t: Tid, calls: seq<M.Call<T>>,
      deeds: seq<H.Effect<T>>)
    requires H.Accounted(m, move, m') && move.thread == t && t in m.pc && calls == H.CallsFor(deeds) + H.Asked(m.pc[t])
    ensures t in m'.pc
    ensures calls + H.Entered(m, t, move) == H.CallsFor(deeds + H.Change(m.list, m'.list)) + H.Asked(m'.pc[t])
  {
    hide *;
    var effects := H.Change(m.list, m'.list);
    H.OwnMove(m, move, m');
    H.CallsForAppend(deeds, effects);
    Carry(calls, H.CallsFor(deeds), H.Asked(m.pc[t]), H.Entered(m, t, move), H.CallsFor(effects), H.Asked(m'.pc[t]));
  }

  lemma ActServed<T>(w: Hosted<T>, a: Act<T>, w': Hosted<T>, t: Tid, calls: seq<M.Call<T>>, deeds: seq<H.Effect<T>>)
    requires Coupled(w) && Step(w, a) == Next(w') && t in w.m.pc && calls == H.CallsFor(deeds) + H.Asked(w.m.pc[t])
    ensures t in w'.m.pc
    ensures calls + Makes(w, t, a)
         == H.CallsFor(deeds + if w.k.current == t then H.Change(w.m.list, w'.m.list) else []) + H.Asked(w'.m.pc[t])
  {
    hide *;
    var move := ActMoves(w, a);
    MakesOwn(w, t, a);
    assert deeds + [] == deeds && calls + [] == calls;
    if w'.m == w.m && Makes(w, w.k.current, a) == [] {
      NoChange(w.m.list);
    } else {
      H.StepAccounted(w.m, move);
      if w.k.current == t {
        OwnServed(w.m, move, w'.m, t, calls, deeds);
      } else {
        H.OtherMove(w.m, move, w'.m, t);
      }
    }
  }

  /** For every run of threads on the kernel: the calls of Append and RemoveFront a thread makes, in order, are what it
      does to the list, in order, followed by the call it is in if that has not got so far. */
  lemma {:induction false} CallsServed<T>(w: Hosted<T>, run: seq<Act<T>>, w': Hosted<T>, t: Tid)
    requires Initial(w) && Exec(w, run) == Next(w') && t in w.m.pc
    ensures t in w'.m.pc && Calls(w, run, t) == H.CallsFor(Deeds(w, run, t)) + H.Asked(w'.m.pc[t])
  {
    if run == [] {
      StartIdle(w, t);
    } else {
      hide *;
      LastAct(w, run, w', t);
      var (front, a) := (run[..|run| - 1], run[|run| - 1]);
      var before := Exec(w, front).state;
      CallsServed(w, front, before, t);
      var schedule, events := RunProjects(w, front, before);
      ActServed(before, a, w', t, Calls(w, front, t), Deeds(w, front, t));
    }
  }
}
