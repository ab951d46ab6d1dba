/** A device that takes one request at a time, shared by any number of threads through a lock and a completion
    semaphore: the shape of SynchDisk (filesys/synchdisk.cc, machine/disk.cc) and of PostOfficeOutput::Send
    (network/post.cc, machine/network.cc).  A thread may be preempted after every statement. */
module Device {
  import opened Base
  import opened Locks

  /** The next statement of a thread; `id` numbers its request. */
  datatype Pc<C, R> =
    | Idle
    | AcquireP(cmd: C)
    | AcquireOwn(cmd: C)
    | Request(cmd: C)
    | Await(id: nat)
    | ReleaseDisown(id: nat)
    | ReleaseV(id: nat)

  datatype Entry<C, R> = Entry(thread: Tid, cmd: C, reply: R)

  datatype Dev<S, C, R> = Dev(
    value: int,              // the lock's semaphore
    holder: Option<Tid>,
    done: int,               // the completion semaphore
    active: bool,            // the device's own idea of being busy
    pending: nat,            // completion interrupts scheduled and not fired
    state: S,                // what the device stores
    pc: map<Tid, Pc<C, R>>,
    log: seq<Entry<C, R>>,   // history: every request taken, with its reply
    fired: nat)              // history: completion interrupts so far

  /** A thread runs its next statement (an idle one makes the request `cmd`), or the completion interrupt fires. */
  datatype Event<C> = Run(thread: Tid, cmd: C) | Interrupt

  ghost predicate Initial<S, C, R>(d: Dev<S, C, R>) {
    && d.value == 1 && d.holder.None? && d.done == 0 && !d.active && d.pending == d.fired == 0 && d.log == []
    && forall t :: t in d.pc ==> d.pc[t].Idle?
  }

  function Goto<S, C, R>(d: Dev<S, C, R>, t: Tid, pc: Pc<C, R>): Dev<S, C, R> {
    d.(pc := d.pc[t := pc])
  }

  /** The device does the work at once and schedules the completion interrupt; ASSERT(!active). */
  function Start<S, C, R>(apply: (S, C) -> (S, R), d: Dev<S, C, R>, t: Tid, cmd: C): Outcome<Dev<S, C, R>> {
    if d.active then AssertFails
    else
      var (state, reply) := apply(d.state, cmd);
      Next(Goto(d.(active := true, pending := d.pending + 1, state := state, log := d.log + [Entry(t, cmd, reply)]),
                t, Await(|d.log|)))
  }

  function Step<S, C, R>(apply: (S, C) -> (S, R), d: Dev<S, C, R>, e: Event<C>): Outcome<Dev<S, C, R>> {
    if e.Interrupt? then
      if d.pending == 0 then Disabled
      else Next(d.(active := false, pending := d.pending - 1, done := d.done + 1, fired := d.fired + 1))
    else if e.thread !in d.pc then Disabled
    else
      var t := e.thread;
      match d.pc[t]
      case Idle => Next(Goto(d, t, AcquireP(e.cmd)))
      case AcquireP(cmd) => if d.value > 0 then Next(Goto(d.(value := d.value - 1), t, AcquireOwn(cmd))) else Disabled
      case AcquireOwn(cmd) => Next(Goto(d.(holder := Some(t)), t, Request(cmd)))
      case Request(cmd) => Start(apply, d, t, cmd)
      case Await(id) => if d.done > 0 then Next(Goto(d.(done := d.done - 1), t, ReleaseDisown(id))) else Disabled
      case ReleaseDisown(id) =>
        if d.holder != Some(t) then AssertFails else Next(Goto(d.(holder := None), t, ReleaseV(id)))
      case ReleaseV(_) => Next(Goto(d.(value := d.value + 1), t, Idle))
  }

  function Exec<S, C, R>(apply: (S, C) -> (S, R), d: Dev<S, C, R>, run: seq<Event<C>>): Outcome<Dev<S, C, R>> {
    if run == [] then Next(d)
    else
      var before := Exec(apply, d, run[..|run| - 1]);
      if before.Next? then Step(apply, before.state, run[|run| - 1]) else before
  }

  // ----- invariants -----

  function PhaseOf<C, R>(pc: Pc<C, R>): Phase {
    match pc
    case Idle | AcquireP(_) => Outside
    case AcquireOwn(_) => Taken
    case Request(_) | Await(_) | ReleaseDisown(_) => Held
    case ReleaseV(_) => Releasing
  }

  function Phases<C, R>(pc: map<Tid, Pc<C, R>>): map<Tid, Phase> {
    map t | t in pc :: PhaseOf(pc[t])
  }

  ghost predicate Locked<S, C, R>(d: Dev<S, C, R>) {
    LockInv(d.value, d.holder, Phases(d.pc))
  }

  ghost predicate Waiting<S, C, R>(d: Dev<S, C, R>, t: Tid) {
    t in d.pc && d.pc[t].Await?
  }

  /** One completion is on its way or has come exactly while a thread waits for it, and it is that thread's. */
  ghost predicate Signals<S, C, R>(d: Dev<S, C, R>) {
    && d.done >= 0 && d.pending == (if d.active then 1 else 0) && d.fired + d.pending == |d.log|
    && d.pending + d.done == (if exists t :: Waiting(d, t) then 1 else 0)
    && (forall t :: Waiting(d, t) ==> d.pc[t].id == |d.log| - 1 && d.log[d.pc[t].id].thread == t)
  }

  /** The device's state after the logged commands, one after the other. */
  function Replay<S, C, R>(apply: (S, C) -> (S, R), start: S, log: seq<Entry<C, R>>): S {
    if log == [] then start
    else apply(Replay(apply, start, log[..|log| - 1]), log[|log| - 1].cmd).0
  }

  /** Every reply is the one the device gives when the commands before it have been done. */
  ghost predicate Answered<S, C, R>(apply: (S, C) -> (S, R), start: S, log: seq<Entry<C, R>>) {
    forall i :: 0 <= i < |log| ==> log[i].reply == apply(Replay(apply, start, log[..i]), log[i].cmd).1
  }

  ghost predicate Inv<S, C, R>(apply: (S, C) -> (S, R), start: S, d: Dev<S, C, R>) {
    Locked(d) && Signals(d) && d.state == Replay(apply, start, d.log) && Answered(apply, start, d.log)
  }

  // ----- every step keeps them -----

  lemma GotoPhase<S, C, R>(d: Dev<S, C, R>, t: Tid, pc: Pc<C, R>)
    requires t in d.pc
    ensures Phases(d.pc[t := pc]) == Phases(d.pc)[t := PhaseOf(pc)]
    ensures Phases(d.pc)[t] == PhaseOf(d.pc[t])
    ensures PhaseOf(pc) == PhaseOf(d.pc[t]) ==> Phases(d.pc[t := pc]) == Phases(d.pc)
  {
  }

  lemma StepLocked<S, C, R>(apply: (S, C) -> (S, R), d: Dev<S, C, R>, e: Event<C>)
    requires Locked(d)
    ensures Step(apply, d, e).Next? ==> Locked(Step(apply, d, e).state)
    ensures Step(apply, d, e).AssertFails? ==> e.Run? && e.thread in d.pc && d.pc[e.thread].Request?
  {
    if e.Run? && e.thread in d.pc {
      hide LockInv;
      var (t, phase) := (e.thread, Phases(d.pc));
      if Step(apply, d, e).Next? {
        GotoPhase(d, t, Step(apply, d, e).state.pc[t]);
      } else {
        GotoPhase(d, t, d.pc[t]);
      }
      if d.pc[t].AcquireP? && d.value > 0 {
        TakeKeeps(d.value, d.holder, phase, t);
      } else if d.pc[t].AcquireOwn? {
        HoldKeeps(d.value, d.holder, phase, t);
      } else if d.pc[t].ReleaseDisown? {
        DropKeeps(d.value, d.holder, phase, t);
      } else if d.pc[t].ReleaseV? {
        GiveKeeps(d.value, d.holder, phase, t);
      }
    }
  }

  /** Two threads are never both past the lock. */
  lemma Alone<S, C, R>(d: Dev<S, C, R>, t: Tid, u: Tid)
    requires Locked(d) && t in d.pc && u in d.pc && PhaseOf(d.pc[t]).Held? && PhaseOf(d.pc[u]).Held?
    ensures t == u
  {
    assert Phases(d.pc)[t].Held? && Phases(d.pc)[u].Held?;
  }

  lemma RequestSignals<S, C, R>(apply: (S, C) -> (S, R), d: Dev<S, C, R>, t: Tid, cmd: C)
    requires Locked(d) && Signals(d) && t in d.pc && d.pc[t] == Request(cmd)
    ensures Start(apply, d, t, cmd).Next? && Signals(Start(apply, d, t, cmd).state)
  {
    forall u ensures !Waiting(d, u) {
      if Waiting(d, u) {
        Alone(d, t, u);
      }
    }
    hide Locked;
    var n := Start(apply, d, t, cmd).state;
    assert Waiting(n, t);
    forall u | Waiting(n, u) ensures u == t {
      assert u != t ==> Waiting(d, u);
    }
  }

  lemma AwaitSignals<S, C, R>(d: Dev<S, C, R>, n: Dev<S, C, R>, t: Tid)
    requires Locked(d) && Signals(d) && Waiting(d, t) && d.done > 0
    requires n == Goto(d.(done := d.done - 1), t, ReleaseDisown(d.pc[t].id))
    ensures Signals(n)
  {
    forall u ensures !Waiting(n, u) {
      if Waiting(n, u) {
        Alone(d, t, u);
      }
    }
  }

  lemma OtherSignals<S, C, R>(d: Dev<S, C, R>, n: Dev<S, C, R>)
    requires Signals(d) && n.done == d.done && n.active == d.active && n.pending == d.pending
    requires n.fired == d.fired && n.log == d.log
    requires forall t :: Waiting(n, t) <==> Waiting(d, t)
    requires forall t :: Waiting(d, t) ==> t in n.pc && n.pc[t] == d.pc[t]
    ensures Signals(n)
  {
  }

  lemma InterruptSignals<S, C, R>(d: Dev<S, C, R>, n: Dev<S, C, R>)
    requires Signals(d) && d.pending > 0
    requires n == d.(active := false, pending := d.pending - 1, done := d.done + 1, fired := d.fired + 1)
    ensures Signals(n)
  {
    assert forall u :: Waiting(n, u) <==> Waiting(d, u);
  }

  lemma StepSignals<S, C, R>(apply: (S, C) -> (S, R), d: Dev<S, C, R>, e: Event<C>)
    requires Locked(d) && Signals(d)
    ensures Step(apply, d, e).Next? ==> Signals(Step(apply, d, e).state)
    ensures Step(apply, d, e).AssertFails? ==> !(e.Run? && e.thread in d.pc && d.pc[e.thread].Request?)
  {
    hide Locked, Signals, Start;
    var r := Step(apply, d, e);
    if e.Interrupt? {
      if d.pending > 0 {
        InterruptSignals(d, r.state);
      }
    } else if e.thread in d.pc {
      if d.pc[e.thread].Request? {
        RequestSignals(apply, d, e.thread, d.pc[e.thread].cmd);
      } else if d.pc[e.thread].Await? {
        if d.done > 0 {
          AwaitSignals(d, r.state, e.thread);
        }
      } else if r.Next? {
        OtherSignals(d, r.state);
      }
    }
  }

  lemma LogKept<S, C, R>(apply: (S, C) -> (S, R), start: S, log: seq<Entry<C, R>>, x: Entry<C, R>)
    requires Answered(apply, start, log) && x.reply == apply(Replay(apply, start, log), x.cmd).1
    ensures Answered(apply, start, log + [x])
    ensures Replay(apply, start, log + [x]) == apply(Replay(apply, start, log), x.cmd).0
  {
    var more := log + [x];
    assert more[..|more| - 1] == log;
    forall i | 0 <= i < |more| ensures more[i].reply == apply(Replay(apply, start, more[..i]), more[i].cmd).1 {
      if i < |log| {
        assert more[..i] == log[..i];
      }
    }
  }

  lemma StepKeeps<S, C, R>(apply: (S, C) -> (S, R), start: S, d: Dev<S, C, R>, e: Event<C>)
    requires Inv(apply, start, d)
    ensures !Step(apply, d, e).AssertFails?
    ensures Step(apply, d, e).Next? ==> Inv(apply, start, Step(apply, d, e).state)
  {
    hide Locked, Signals, Answered, Replay;
    StepLocked(apply, d, e);
    StepSignals(apply, d, e);
    if e.Run? && e.thread in d.pc && d.pc[e.thread].Request? {
      var cmd := d.pc[e.thread].cmd;
      LogKept(apply, start, d.log, Entry(e.thread, cmd, apply(d.state, cmd).1));
    }
  }

  lemma InitialInv<S, C, R>(apply: (S, C) -> (S, R), d: Dev<S, C, R>)
    requires Initial(d)
    ensures Inv(apply, d.state, d)
  {
    FreshLock(Phases(d.pc));
  }

  lemma {:induction false} RunKeeps<S, C, R>(apply: (S, C) -> (S, R), d: Dev<S, C, R>, run: seq<Event<C>>)
    requires Initial(d)
    ensures !Exec(apply, d, run).AssertFails?
    ensures Exec(apply, d, run).Next? ==> Inv(apply, d.state, Exec(apply, d, run).state)
  {
    hide Inv, Initial;
    if run == [] {
      InitialInv(apply, d);
    } else {
      RunKeeps(apply, d, run[..|run| - 1]);
      var before := Exec(apply, d, run[..|run| - 1]);
      if before.Next? {
        StepKeeps(apply, d.state, before.state, run[|run| - 1]);
      }
    }
  }

  // ----- theorems -----

  /** Requests never overlap, in any interleaving: no ASSERT of the device or the lock ever fails, and the device's
      busy flag plus the completion semaphore count the one thread between its request and the end of its P. */
  lemma NoOverlap<S, C, R>(apply: (S, C) -> (S, R), start: Dev<S, C, R>, run: seq<Event<C>>, d: Dev<S, C, R>)
    requires Initial(start) && Exec(apply, start, run) == Next(d)
    ensures forall e :: !Step(apply, d, e).AssertFails?
    ensures (if d.active then 1 else 0) + d.done == |set t | t in d.pc && d.pc[t].Await?| <= 1
  {
    RunKeeps(apply, start, run);
    forall e ensures !Step(apply, d, e).AssertFails? {
      StepKeeps(apply, start.state, d, e);
    }
    var waiters := set t | t in d.pc && d.pc[t].Await?;
    if u :| Waiting(d, u) {
      forall t | t in waiters ensures t == u {
        Alone(d, t, u);
      }
      assert waiters == {u};
    } else {
      assert forall t :: t in waiters ==> Waiting(d, t);
      assert waiters == {};
    }
  }

  /** A thread gets past its wait only when its own request, the latest one, has completed. */
  lemma WakesItself<S, C, R>(apply: (S, C) -> (S, R), start: Dev<S, C, R>, run: seq<Event<C>>, d: Dev<S, C, R>,
      e: Event<C>)
    requires Initial(start) && Exec(apply, start, run) == Next(d)
    requires e.Run? && e.thread in d.pc && d.pc[e.thread].Await? && Step(apply, d, e).Next?
    ensures var id := d.pc[e.thread].id;
      id == |d.log| - 1 && d.log[id].thread == e.thread && d.fired == |d.log| && !d.active
  {
    RunKeeps(apply, start, run);
    assert Waiting(d, e.thread);
  }

  /** A waiting thread's completion has come or is still scheduled: it cannot wait for ever. */
  lemma CompletionComes<S, C, R>(apply: (S, C) -> (S, R), start: Dev<S, C, R>, run: seq<Event<C>>, d: Dev<S, C, R>,
      t: Tid)
    requires Initial(start) && Exec(apply, start, run) == Next(d)
    requires t in d.pc && d.pc[t].Await?
    ensures d.done > 0 || d.pending > 0
  {
    RunKeeps(apply, start, run);
    assert Waiting(d, t);
  }

  // ----- every request is made once, in the caller's order -----

  /** The commands with which thread t has entered the protocol, in order. */
  function Calls<S, C, R>(apply: (S, C) -> (S, R), start: Dev<S, C, R>, run: seq<Event<C>>, t: Tid): seq<C> {
    if run == [] then []
    else
      var before := Exec(apply, start, run[..|run| - 1]);
      Calls(apply, start, run[..|run| - 1], t) + if before.Next? then Entered(before.state, run[|run| - 1], t) else []
  }

  function Entered<S, C, R>(d: Dev<S, C, R>, e: Event<C>, t: Tid): seq<C> {
    if e.Run? && e.thread == t && t in d.pc && d.pc[t].Idle? then [e.cmd] else []
  }

  /** The command a thread has entered with and not yet passed on to the device. */
  function Asked<C, R>(pc: Pc<C, R>): seq<C> {
    if pc.AcquireP? || pc.AcquireOwn? || pc.Request? then [pc.cmd] else []
  }

  function Performed<C, R>(log: seq<Entry<C, R>>, t: Tid): seq<C> {
    if log == [] then []
    else Performed(log[..|log| - 1], t) + if log[|log| - 1].thread == t then [log[|log| - 1].cmd] else []
  }

  lemma PerformedOne<C, R>(log: seq<Entry<C, R>>, x: Entry<C, R>, t: Tid)
    ensures Performed(log + [x], t) == Performed(log, t) + if x.thread == t then [x.cmd] else []
  {
    assert (log + [x])[..|log|] == log;
  }

  /** What a step does to the log and to the commands on their way. */
  ghost predicate Advances<S, C, R>(d: Dev<S, C, R>, e: Event<C>, d': Dev<S, C, R>) {
    if e.Interrupt? then d'.log == d.log && d'.pc == d.pc
    else
      var t := e.thread;
      && t in d.pc && t in d'.pc && d'.pc == d.pc[t := d'.pc[t]]
      && (if d.pc[t].Request?
          then |d'.log| == |d.log| + 1 && d'.log[..|d.log|] == d.log && Asked(d'.pc[t]) == []
               && d'.log[|d.log|].thread == t && d'.log[|d.log|].cmd == d.pc[t].cmd
          else d'.log == d.log && Asked(d'.pc[t]) == Asked(d.pc[t]) + Entered(d, e, t))
  }

  lemma StepAdvances<S, C, R>(apply: (S, C) -> (S, R), d: Dev<S, C, R>, e: Event<C>)
    requires Step(apply, d, e).Next?
    ensures Advances(d, e, Step(apply, d, e).state)
  {
  }

  lemma StepPerforms<S, C, R>(d: Dev<S, C, R>, e: Event<C>, d': Dev<S, C, R>, t: Tid)
    requires t in d.pc && Advances(d, e, d')
    ensures t in d'.pc
    ensures Performed(d'.log, t) + Asked(d'.pc[t]) == Performed(d.log, t) + Asked(d.pc[t]) + Entered(d, e, t)
  {
    hide Performed;
    var (before, asked) := (Performed(d.log, t), Asked(d.pc[t]));
    if e.Run? && d.pc[e.thread].Request? {
      assert d'.log == d.log + [d'.log[|d.log|]];
      PerformedOne(d.log, d'.log[|d.log|], t);
      hide Asked;
      if e.thread == t {
        assert Entered(d, e, t) == [];
        Regroup(before, [d.pc[t].cmd], []);
      } else {
        Regroup(before, asked, []);
      }
    } else {
      Regroup(before, asked, Entered(d, e, t));
      hide Asked, Entered;
    }
  }

  lemma Regroup<T>(a: seq<T>, b: seq<T>, c: seq<T>)
    ensures a + b + c == a + (b + c) && a + [] == a && b + [] == b
  {
  }

  /** In every interleaving the device performs the commands of each thread exactly as the thread called them: each
      once, unchanged and in that order; at most the last one is still to come. */
  lemma {:induction false} CallsInOrder<S, C, R>(apply: (S, C) -> (S, R), start: Dev<S, C, R>, run: seq<Event<C>>,
                                                 d: Dev<S, C, R>, t: Tid)
    requires Initial(start) && Exec(apply, start, run) == Next(d) && t in start.pc
    ensures t in d.pc && Calls(apply, start, run, t) == Performed(d.log, t) + Asked(d.pc[t])
  {
    if run == [] {
    } else {
      hide Initial, Step, Performed, Asked, Entered, Advances;
      var before := Exec(apply, start, run[..|run| - 1]).state;
      CallsInOrder(apply, start, run[..|run| - 1], before, t);
      StepAdvances(apply, before, run[|run| - 1]);
      StepPerforms(before, run[|run| - 1], d, t);
    }
  }

  /** The threads' requests take effect one after another, in the order of the log. */
  lemma OneAfterAnother<S, C, R>(apply: (S, C) -> (S, R), start: Dev<S, C, R>, run: seq<Event<C>>, d: Dev<S, C, R>)
    requires Initial(start) && Exec(apply, start, run) == Next(d)
    ensures d.state == Replay(apply, start.state, d.log) && Answered(apply, start.state, d.log)
  {
    RunKeeps(apply, start, run);
  }
}

/** SynchDisk: the same requests, of any number of threads, on the disk. */
module SynchDisks {
  import opened Base
  import opened DiskImage
  import opened Device

  /** The data of the latest write to a sector among the logged requests, or what the disk held at the start. */
  function LatestWrite(start: Image, log: seq<Entry<Access, Sector>>, sector: SectorNumber): Sector {
    if log == [] then start[sector]
    else
      var last := log[|log| - 1];
      if last.cmd.Write? && last.cmd.sector == sector then last.cmd.data
      else LatestWrite(start, log[..|log| - 1], sector)
  }

  lemma {:induction false} StoreIsLatest(start: Image, log: seq<Entry<Access, Sector>>, sector: SectorNumber)
    ensures Replay(Serve, start, log)[sector] == LatestWrite(start, log, sector)
  {
    if log == [] {
    } else {
      StoreIsLatest(start, log[..|log| - 1], sector);
    }
  }

  /** In every run of any number of threads, on a disk with any contents, every read returns the data of the latest
      write to its sector. */
  lemma ReadsLatestWrite(start: Dev<Image, Access, Sector>, run: seq<Event<Access>>, d: Dev<Image, Access, Sector>,
      i: nat)
    requires Initial(start) && Exec(Serve, start, run) == Next(d) && i < |d.log| && d.log[i].cmd.Read?
    ensures d.log[i].reply == LatestWrite(start.state, d.log[..i], d.log[i].cmd.sector)
  {
    OneAfterAnother(Serve, start, run, d);
    StoreIsLatest(start.state, d.log[..i], d.log[i].cmd.sector);
  }

  /** And the disk itself holds the latest write to every sector. */
  lemma HoldsLatestWrite(start: Dev<Image, Access, Sector>, run: seq<Event<Access>>, d: Dev<Image, Access, Sector>,
                         sector: SectorNumber)
    requires Initial(start) && Exec(Serve, start, run) == Next(d)
    ensures d.state[sector] == LatestWrite(start.state, d.log, sector)
  {
    OneAfterAnother(Serve, start, run, d);
    StoreIsLatest(start.state, d.log, sector);
  }
}
