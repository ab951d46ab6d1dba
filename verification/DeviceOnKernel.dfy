/** The device protocol of SynchDisk and PostOfficeOutput on the kernel: its lock's and its completion semaphore are
    kernel semaphores, and the completion interrupt is a V by a handler (filesys/synchdisk.cc, network/post.cc). */
module DeviceOnKernel {
  import opened Base
  import opened Hosting
  import K = Kernel
  import KP = KernelProofs
  import D = Device

  type Tid = nat
  type Sid = nat

  datatype Hosted<S, C, R> = Hosted(k: K.State, d: D.Dev<S, C, R>, lock: Sid, done: Sid)

  /** The current thread runs its next statement, the completion interrupt fires, or the kernel does anything else. */
  datatype Act<C> = Run(cmd: C) | Complete | Sys(e: K.Event)

  predicate AtP<C, R>(pc: D.Pc<C, R>) { pc.AcquireP? || pc.Await? }

  function PSem<S, C, R>(w: Hosted<S, C, R>, t: Tid): Sid
    requires t in w.d.pc
  {
    if w.d.pc[t].Await? then w.done else w.lock
  }

  function ViewOf<S, C, R>(w: Hosted<S, C, R>): View {
    View({w.lock, w.done},
         map t | t in w.d.pc && AtP(w.d.pc[t]) :: PSem(w, t),
         set t | t in w.d.pc && !w.d.pc[t].Idle? && !AtP(w.d.pc[t]))
  }

  // ----- steps -----

  /** The protocol's side of an event, once the kernel is in state k'. */
  function Then<S, C, R>(apply: (S, C) -> (S, R), w: Hosted<S, C, R>, k': K.State, e: D.Event<C>)
    : Outcome<Hosted<S, C, R>>
  {
    match D.Step(apply, w.d, e)
    case Next(d') => Next(Hosted(k', d', w.lock, w.done))
    case Disabled => Disabled
    case AssertFails => AssertFails
  }

  /** P: the statement is over if the kernel lets the thread run on; otherwise it sleeps in it. */
  function Down<S, C, R>(apply: (S, C) -> (S, R), w: Hosted<S, C, R>, e: K.Event, cmd: C): Outcome<Hosted<S, C, R>> {
    match K.Step(w.k, e)
    case Next(k') => if k'.cpu.On? then Then(apply, w, k', D.Run(w.k.current, cmd)) else Next(w.(k := k'))
    case Disabled => Disabled
    case AssertFails => AssertFails
  }

  /** V, by a thread or by the completion handler. */
  function Up<S, C, R>(apply: (S, C) -> (S, R), w: Hosted<S, C, R>, e: K.Event, f: D.Event<C>)
    : Outcome<Hosted<S, C, R>>
  {
    match K.Step(w.k, e)
    case Next(k') => Then(apply, w, k', f)
    case Disabled => Disabled
    case AssertFails => AssertFails
  }

  /** The current thread is about to test one of the two semaphores again. */
  predicate Retests<S, C, R>(w: Hosted<S, C, R>, e: K.Event) {
    && e.TestAgain? && w.k.cpu.Retest? && w.k.current in w.k.place && w.k.place[w.k.current].InP?
    && w.k.place[w.k.current].sem in {w.lock, w.done}
  }

  /** The command of a thread that is inside the protocol does not matter. */
  ghost function Step<S, C, R>(apply: (S, C) -> (S, R), any: C, w: Hosted<S, C, R>, a: Act<C>)
    : Outcome<Hosted<S, C, R>>
  {
    match a
    case Run(cmd) =>
      if !w.k.cpu.On? || w.k.current !in w.d.pc then Disabled
      else if AtP(w.d.pc[w.k.current]) then Down(apply, w, K.P(PSem(w, w.k.current)), cmd)
      else if w.d.pc[w.k.current].ReleaseV? then Up(apply, w, K.V(w.lock), D.Run(w.k.current, cmd))
      else Then(apply, w, w.k, D.Run(w.k.current, cmd))
    case Complete =>
      if w.d.pending == 0 then Disabled else Up(apply, w, K.HandlerV(w.done), D.Interrupt)
    case Sys(e) =>
      if Retests(w, e) then Down(apply, w, e, any)
      else if !Elsewhere(w.k, ViewOf(w), e) then Disabled
      else match K.Step(w.k, e)
           case Next(k') => Next(w.(k := k'))
           case Disabled => Disabled
           case AssertFails => AssertFails
  }

  ghost function Exec<S, C, R>(apply: (S, C) -> (S, R), any: C, w: Hosted<S, C, R>, run: seq<Act<C>>)
    : Outcome<Hosted<S, C, R>>
  {
    if run == [] then Next(w)
    else
      var before := Exec(apply, any, w, run[..|run| - 1]);
      if before.Next? then Step(apply, any, before.state, run[|run| - 1]) else before
  }

  // ----- the invariant that couples the two -----

  ghost predicate Valued<S, C, R>(k: K.State, d: D.Dev<S, C, R>, lock: Sid, done: Sid) {
    && lock != done && lock in k.sems && done in k.sems
    && k.sems[lock].value == d.value && k.sems[done].value == d.done
  }

  ghost predicate Coupled<S, C, R>(apply: (S, C) -> (S, R), start: S, w: Hosted<S, C, R>) {
    K.Inv(w.k) && D.Inv(apply, start, w.d) && Hosts(w.k, ViewOf(w)) && Valued(w.k, w.d, w.lock, w.done)
  }

  /** Any sound kernel state, an idle device, and its two semaphores, which nobody has used yet. */
  ghost predicate Initial<S, C, R>(w: Hosted<S, C, R>) {
    && K.Inv(w.k) && D.Initial(w.d) && w.lock != w.done
    && w.lock in w.k.sems && w.k.sems[w.lock].value == 1 && w.done in w.k.sems && w.k.sems[w.done].value == 0
    && (forall t :: t in w.k.place ==> w.k.place[t] != K.InP(w.lock))
    && (forall t :: t in w.k.place ==> w.k.place[t] != K.InP(w.done))
  }

  lemma InitialCoupled<S, C, R>(apply: (S, C) -> (S, R), w: Hosted<S, C, R>)
    requires Initial(w)
    ensures Coupled(apply, w.d.state, w)
  {
    D.InitialInv(apply, w.d);
    InitialView(w);
    hide K.Inv, D.Inv, ViewOf;
    UnusedHosts(w.k, w.lock, w.done);
  }

  lemma InitialView<S, C, R>(w: Hosted<S, C, R>)
    requires D.Initial(w.d)
    ensures ViewOf(w) == View({w.lock, w.done}, map[], {})
  {
    assert ViewOf(w).wants == map[] && ViewOf(w).busy == {};
  }

  lemma UnusedHosts(k: K.State, lock: Sid, done: Sid)
    requires lock in k.sems && forall t :: t in k.place ==> k.place[t] != K.InP(lock)
    requires done in k.sems && forall t :: t in k.place ==> k.place[t] != K.InP(done)
    ensures Hosts(k, View({lock, done}, map[], {}))
  {
  }

  lemma CoupledParts<S, C, R>(apply: (S, C) -> (S, R), start: S, w: Hosted<S, C, R>)
    requires Coupled(apply, start, w)
    ensures K.Inv(w.k) && Hosts(w.k, ViewOf(w)) && ViewOf(w).mine == {w.lock, w.done}
    ensures D.Inv(apply, start, w.d) && Valued(w.k, w.d, w.lock, w.done) && w.lock in w.k.sems && w.done in w.k.sems
  {
    hide K.Inv, D.Inv, Hosts;
  }

  // ----- what an event does to the protocol -----

  ghost predicate Changes<S, C, R>(d: D.Dev<S, C, R>, t: Tid, d': D.Dev<S, C, R>)
    requires t in d.pc
  {
    var pc := d.pc[t];
    && t in d'.pc && d'.pc == d.pc[t := d'.pc[t]]
    && d'.value == d.value + (if pc.ReleaseV? then 1 else if pc.AcquireP? then -1 else 0)
    && d'.done == d.done + (if pc.Await? then -1 else 0)
  }

  lemma StepChanges<S, C, R>(apply: (S, C) -> (S, R), d: D.Dev<S, C, R>, t: Tid, cmd: C)
    requires t in d.pc
    ensures var r := D.Step(apply, d, D.Run(t, cmd));
            && (r.Next? ==> Changes(d, t, r.state))
            && (r.Disabled? ==> (d.pc[t].AcquireP? && d.value <= 0) || (d.pc[t].Await? && d.done <= 0))
  {
  }

  /** The protocol's half of an event: it keeps the protocol's invariant and fails no ASSERT. */
  lemma DeviceHalf<S, C, R>(apply: (S, C) -> (S, R), start: S, d: D.Dev<S, C, R>, e: D.Event<C>)
    requires D.Inv(apply, start, d)
    ensures var r := D.Step(apply, d, e); !r.AssertFails? && (r.Next? ==> D.Inv(apply, start, r.state))
  {
    hide D.Inv, D.Step;
    D.StepKeeps(apply, start, d, e);
  }

  // ----- every act keeps the coupling -----

  lemma ViewFollows<S, C, R>(w: Hosted<S, C, R>, w': Hosted<S, C, R>, v: View, t: Tid)
    requires t in w.d.pc && t in w'.d.pc && w'.d.pc == w.d.pc[t := w'.d.pc[t]]
    requires w'.lock == w.lock && w'.done == w.done
    requires v.mine == {w.lock, w.done} && v.busy == ViewOf(w).busy
    requires v.wants == ViewOf(w).wants || v.wants == ViewOf(w).wants - {t}
    ensures Follows(v, ViewOf(w'), t)
  {
  }

  /** A statement of the current thread: the two halves put together. */
  lemma ThenKeeps<S, C, R>(apply: (S, C) -> (S, R), start: S, w: Hosted<S, C, R>, k': K.State, cmd: C, v: View)
    requires Coupled(apply, start, w) && w.k.current in w.d.pc
    requires D.Step(apply, w.d, D.Run(w.k.current, cmd)).Next?
    requires K.Inv(k') && Hosts(k', v) && w.k.current in k'.place && k'.place[w.k.current].Code?
    requires v.mine == {w.lock, w.done} && v.busy == ViewOf(w).busy
    requires v.wants == ViewOf(w).wants || v.wants == ViewOf(w).wants - {w.k.current}
    requires Valued(k', D.Step(apply, w.d, D.Run(w.k.current, cmd)).state, w.lock, w.done)
    ensures var r := Then(apply, w, k', D.Run(w.k.current, cmd));
            && r.Next? && Coupled(apply, start, r.state) && r.state.k == k'
            && D.Step(apply, w.d, D.Run(w.k.current, cmd)) == Next(r.state.d)
  {
    hide *;
    CoupledParts(apply, start, w);
    DeviceHalf(apply, start, w.d, D.Run(w.k.current, cmd));
    StepChanges(apply, w.d, w.k.current, cmd);
    ThenIs(apply, w, k', D.Run(w.k.current, cmd));
    var w' := Then(apply, w, k', D.Run(w.k.current, cmd)).state;
    ChangesPc(w.d, w.k.current, w'.d);
    ViewFollows(w, w', v, w.k.current);
    MoveHosted(k', v, ViewOf(w'), w.k.current);
    Couple(apply, start, w');
  }

  lemma ThenIs<S, C, R>(apply: (S, C) -> (S, R), w: Hosted<S, C, R>, k': K.State, e: D.Event<C>)
    requires D.Step(apply, w.d, e).Next?
    ensures Then(apply, w, k', e) == Next(Hosted(k', D.Step(apply, w.d, e).state, w.lock, w.done))
  {
    hide D.Step;
  }

  lemma ChangesPc<S, C, R>(d: D.Dev<S, C, R>, t: Tid, d': D.Dev<S, C, R>)
    requires t in d.pc && Changes(d, t, d')
    ensures t in d'.pc && d'.pc == d.pc[t := d'.pc[t]]
  {
  }

  lemma Couple<S, C, R>(apply: (S, C) -> (S, R), start: S, w: Hosted<S, C, R>)
    requires K.Inv(w.k) && D.Inv(apply, start, w.d) && Hosts(w.k, ViewOf(w)) && Valued(w.k, w.d, w.lock, w.done)
    ensures Coupled(apply, start, w)
  {
    hide K.Inv, D.Inv, Hosts;
  }

  lemma WantsIs<S, C, R>(w: Hosted<S, C, R>, t: Tid)
    requires t in w.d.pc && AtP(w.d.pc[t])
    ensures t in ViewOf(w).wants && ViewOf(w).wants[t] == PSem(w, t)
  {
  }

  /** P succeeds. */
  lemma TakenValued<S, C, R>(apply: (S, C) -> (S, R), w: Hosted<S, C, R>, k': K.State, cmd: C)
    requires w.k.current in w.d.pc && AtP(w.d.pc[w.k.current]) && Valued(w.k, w.d, w.lock, w.done)
    requires Takes(w.k, k', PSem(w, w.k.current), {w.lock, w.done})
    requires !D.Step(apply, w.d, D.Run(w.k.current, cmd)).AssertFails?
    ensures D.Step(apply, w.d, D.Run(w.k.current, cmd)).Next?
    ensures Valued(k', D.Step(apply, w.d, D.Run(w.k.current, cmd)).state, w.lock, w.done)
  {
    StepChanges(apply, w.d, w.k.current, cmd);
    hide D.Step;
  }

  lemma PKeeps<S, C, R>(apply: (S, C) -> (S, R), start: S, w: Hosted<S, C, R>, e: K.Event, cmd: C)
    requires Coupled(apply, start, w) && w.k.current in w.d.pc && AtP(w.d.pc[w.k.current])
    requires Tests(w.k, e, PSem(w, w.k.current))
    ensures var r := Down(apply, w, e, cmd);
            && r.Next? && Coupled(apply, start, r.state) && K.Step(w.k, e) == Next(r.state.k)
            && (r.state.d == w.d || D.Step(apply, w.d, D.Run(w.k.current, cmd)) == Next(r.state.d))
  {
    hide *;
    var s := PSem(w, w.k.current);
    WantsIs(w, w.k.current);
    TestsIs(w.k, e, s);
    CoupledParts(apply, start, w);
    DownHosted(w.k, ViewOf(w), s);
    var k' := K.TestP(w.k, s).state;
    DownIs(apply, w, e, k', cmd);
    if w.k.sems[s].value == 0 {
      StillAsleep(apply, start, w, k', s);
    } else {
      TakesIs(w.k, k', s, {w.lock, w.done});
      DeviceHalf(apply, start, w.d, D.Run(w.k.current, cmd));
      TakenValued(apply, w, k', cmd);
      ThenKeeps(apply, start, w, k', cmd, ViewOf(w).(wants := ViewOf(w).wants - {w.k.current}));
    }
  }

  lemma DownIs<S, C, R>(apply: (S, C) -> (S, R), w: Hosted<S, C, R>, e: K.Event, k': K.State, cmd: C)
    requires K.Step(w.k, e) == Next(k')
    ensures Down(apply, w, e, cmd)
         == if k'.cpu.On? then Then(apply, w, k', D.Run(w.k.current, cmd)) else Next(w.(k := k'))
  {
    hide K.Step;
  }

  lemma StillAsleep<S, C, R>(apply: (S, C) -> (S, R), start: S, w: Hosted<S, C, R>, k': K.State, s: Sid)
    requires Coupled(apply, start, w) && K.Inv(k') && Hosts(k', ViewOf(w))
    requires s in w.k.sems && s in k'.sems && w.k.sems[s].value == k'.sems[s].value
    requires ValuesKept(w.k, k', {w.lock, w.done} - {s})
    ensures Coupled(apply, start, w.(k := k'))
  {
    hide K.Inv, D.Inv, Hosts;
    assert ViewOf(w.(k := k')) == ViewOf(w);
    hide ViewOf;
  }

  /** V by the thread that releases the lock. */
  lemma ReleaseKeeps<S, C, R>(apply: (S, C) -> (S, R), start: S, w: Hosted<S, C, R>, cmd: C)
    requires Coupled(apply, start, w) && w.k.cpu.On? && w.k.current in w.d.pc && w.d.pc[w.k.current].ReleaseV?
    ensures var r := Up(apply, w, K.V(w.lock), D.Run(w.k.current, cmd));
            && r.Next? && Coupled(apply, start, r.state) && K.Step(w.k, K.V(w.lock)) == Next(r.state.k)
            && D.Step(apply, w.d, D.Run(w.k.current, cmd)) == Next(r.state.d)
  {
    hide *;
    CoupledParts(apply, start, w);
    CurrentPlaced(w.k);
    VIs(w.k, w.lock);
    UpHosted(w.k, ViewOf(w), w.lock);
    var k' := K.DoV(w.k, w.lock).state;
    GivesIs(w.k, k', w.lock, {w.lock, w.done});
    UpIs(apply, w, K.V(w.lock), D.Run(w.k.current, cmd));
    DeviceHalf(apply, start, w.d, D.Run(w.k.current, cmd));
    ReleasedValued(apply, w, k', cmd);
    ThenKeeps(apply, start, w, k', cmd, ViewOf(w));
  }

  lemma UpIs<S, C, R>(apply: (S, C) -> (S, R), w: Hosted<S, C, R>, e: K.Event, f: D.Event<C>)
    requires K.Step(w.k, e).Next?
    ensures Up(apply, w, e, f) == Then(apply, w, K.Step(w.k, e).state, f)
  {
    hide K.Step, Then;
  }

  lemma ReleasedValued<S, C, R>(apply: (S, C) -> (S, R), w: Hosted<S, C, R>, k': K.State, cmd: C)
    requires w.k.current in w.d.pc && w.d.pc[w.k.current].ReleaseV? && Valued(w.k, w.d, w.lock, w.done)
    requires Gives(w.k, k', w.lock, {w.lock, w.done}) && !D.Step(apply, w.d, D.Run(w.k.current, cmd)).AssertFails?
    ensures D.Step(apply, w.d, D.Run(w.k.current, cmd)).Next?
    ensures Valued(k', D.Step(apply, w.d, D.Run(w.k.current, cmd)).state, w.lock, w.done)
  {
    StepChanges(apply, w.d, w.k.current, cmd);
    hide D.Step;
  }

  /** The completion interrupt, whatever thread it interrupts, or while the machine idles. */
  lemma CompleteKeeps<S, C, R>(apply: (S, C) -> (S, R), start: S, w: Hosted<S, C, R>)
    requires Coupled(apply, start, w) && w.d.pending > 0 && K.Step(w.k, K.HandlerV(w.done)).Next?
    ensures var r := Up(apply, w, K.HandlerV(w.done), D.Interrupt);
            && r.Next? && Coupled(apply, start, r.state) && K.Step(w.k, K.HandlerV(w.done)) == Next(r.state.k)
            && D.Step(apply, w.d, D.Interrupt) == Next(r.state.d)
  {
    hide *;
    CoupledParts(apply, start, w);
    HandlerIs(w.k, w.done);
    UpHosted(w.k, ViewOf(w), w.done);
    var k' := K.DoV(w.k, w.done).state;
    GivesIs(w.k, k', w.done, {w.lock, w.done});
    UpIs(apply, w, K.HandlerV(w.done), D.Interrupt);
    DeviceHalf(apply, start, w.d, D.Interrupt);
    Interrupted(apply, w, k');
    ThenIs(apply, w, k', D.Interrupt);
    Couple(apply, start, Then(apply, w, k', D.Interrupt).state);
  }

  lemma HandlerIs(k: K.State, s: Sid)
    requires s in k.sems
    ensures K.Step(k, K.HandlerV(s)).Next? ==> (k.cpu.On? || k.cpu.Asleep?) && K.Step(k, K.HandlerV(s)) == K.DoV(k, s)
    ensures !(k.cpu.On? || k.cpu.Asleep?) ==> K.Step(k, K.HandlerV(s)).Disabled?
    ensures k.cpu.On? || k.cpu.Asleep? ==> K.Step(k, K.HandlerV(s)) == K.DoV(k, s)
  {
    hide K.DoV;
  }

  lemma Interrupted<S, C, R>(apply: (S, C) -> (S, R), w: Hosted<S, C, R>, k': K.State)
    requires w.d.pending > 0 && Valued(w.k, w.d, w.lock, w.done) && Gives(w.k, k', w.done, {w.lock, w.done})
    ensures D.Step(apply, w.d, D.Interrupt).Next?
    ensures Valued(k', D.Step(apply, w.d, D.Interrupt).state, w.lock, w.done)
    ensures ViewOf(Hosted(k', D.Step(apply, w.d, D.Interrupt).state, w.lock, w.done)) == ViewOf(w)
  {
  }

  /** Any other statement. */
  lemma PlainKeeps<S, C, R>(apply: (S, C) -> (S, R), start: S, w: Hosted<S, C, R>, cmd: C)
    requires Coupled(apply, start, w) && w.k.cpu.On? && w.k.current in w.d.pc
    requires !AtP(w.d.pc[w.k.current]) && !w.d.pc[w.k.current].ReleaseV?
    ensures var r := Then(apply, w, w.k, D.Run(w.k.current, cmd));
            && r.Next? && Coupled(apply, start, r.state) && r.state.k == w.k
            && D.Step(apply, w.d, D.Run(w.k.current, cmd)) == Next(r.state.d)
  {
    hide *;
    CoupledParts(apply, start, w);
    CurrentPlaced(w.k);
    DeviceHalf(apply, start, w.d, D.Run(w.k.current, cmd));
    PlainValued(apply, w, cmd);
    ThenKeeps(apply, start, w, w.k, cmd, ViewOf(w));
  }

  lemma PlainValued<S, C, R>(apply: (S, C) -> (S, R), w: Hosted<S, C, R>, cmd: C)
    requires w.k.current in w.d.pc && !AtP(w.d.pc[w.k.current]) && !w.d.pc[w.k.current].ReleaseV?
    requires Valued(w.k, w.d, w.lock, w.done) && !D.Step(apply, w.d, D.Run(w.k.current, cmd)).AssertFails?
    ensures D.Step(apply, w.d, D.Run(w.k.current, cmd)).Next?
    ensures Valued(w.k, D.Step(apply, w.d, D.Run(w.k.current, cmd)).state, w.lock, w.done)
  {
    StepChanges(apply, w.d, w.k.current, cmd);
    hide D.Step;
  }

  lemma SysKeeps<S, C, R>(apply: (S, C) -> (S, R), start: S, w: Hosted<S, C, R>, e: K.Event)
    requires Coupled(apply, start, w) && Elsewhere(w.k, ViewOf(w), e)
    ensures !K.Step(w.k, e).AssertFails?
    ensures K.Step(w.k, e).Next? ==> Coupled(apply, start, w.(k := K.Step(w.k, e).state))
  {
    hide *;
    CoupledParts(apply, start, w);
    OtherHosted(w.k, ViewOf(w), e);
    if K.Step(w.k, e).Next? {
      KernelMoves(apply, start, w, K.Step(w.k, e).state);
    }
  }

  lemma KernelMoves<S, C, R>(apply: (S, C) -> (S, R), start: S, w: Hosted<S, C, R>, k': K.State)
    requires Coupled(apply, start, w) && K.Inv(k') && Hosts(k', ViewOf(w)) && ValuesKept(w.k, k', {w.lock, w.done})
    ensures Coupled(apply, start, w.(k := k'))
  {
    hide K.Inv, D.Inv, Hosts;
    assert ViewOf(w.(k := k')) == ViewOf(w);
    hide ViewOf;
  }

  lemma RetestIs<S, C, R>(apply: (S, C) -> (S, R), start: S, w: Hosted<S, C, R>, e: K.Event)
    requires Coupled(apply, start, w) && Retests(w, e)
    ensures w.k.current in w.d.pc && AtP(w.d.pc[w.k.current]) && Tests(w.k, e, PSem(w, w.k.current))
  {
    hide K.Inv, D.Inv;
  }

  lemma TestsNow<S, C, R>(apply: (S, C) -> (S, R), start: S, w: Hosted<S, C, R>)
    requires Coupled(apply, start, w) && w.k.cpu.On? && w.k.current in w.d.pc && AtP(w.d.pc[w.k.current])
    ensures Tests(w.k, K.P(PSem(w, w.k.current)), PSem(w, w.k.current))
  {
    CoupledParts(apply, start, w);
    hide Coupled, K.Inv, D.Inv, Hosts, ViewOf;
  }

  // ----- whole runs -----

  ghost predicate Projects<S, C, R>(apply: (S, C) -> (S, R), w: Hosted<S, C, R>, w': Hosted<S, C, R>,
                                    moves: seq<D.Event<C>>, events: seq<K.Event>)
  {
    && ((moves == [] && w'.d == w.d) || (|moves| == 1 && D.Step(apply, w.d, moves[0]) == Next(w'.d)))
    && ((events == [] && w'.k == w.k) || (|events| == 1 && K.Step(w.k, events[0]) == Next(w'.k)))
  }

  /** No act fails an ASSERT; every one keeps the coupling and is a step of the protocol, of the kernel, or of both. */
  lemma StepProjects<S, C, R>(apply: (S, C) -> (S, R), any: C, start: S, w: Hosted<S, C, R>, a: Act<C>)
    returns (moves: seq<D.Event<C>>, events: seq<K.Event>)
    requires Coupled(apply, start, w)
    ensures var r := Step(apply, any, w, a);
            && !r.AssertFails?
            && (r.Next? ==> Coupled(apply, start, r.state) && Projects(apply, w, r.state, moves, events))
  {
    moves, events := [], [];
    hide Coupled, K.Step, D.Step, Then, Up, Down, Elsewhere, ViewOf, PSem, AtP, Tests;
    match a
    case Run(cmd) =>
      if w.k.cpu.On? && w.k.current in w.d.pc {
        var e := D.Run(w.k.current, cmd);
        if AtP(w.d.pc[w.k.current]) {
          TestsNow(apply, start, w);
          PKeeps(apply, start, w, K.P(PSem(w, w.k.current)), cmd);
          events := [K.P(PSem(w, w.k.current))];
          moves := if Step(apply, any, w, a).state.d == w.d then [] else [e];
        } else if w.d.pc[w.k.current].ReleaseV? {
          ReleaseKeeps(apply, start, w, cmd);
          events, moves := [K.V(w.lock)], [e];
        } else {
          PlainKeeps(apply, start, w, cmd);
          moves := [e];
        }
      }
    case Complete =>
      if w.d.pending > 0 {
        CompletionServed(apply, start, w);
        events, moves := [K.HandlerV(w.done)], [D.Interrupt];
      }
    case Sys(e) =>
      events := [e];
      if Retests(w, e) {
        RetestIs(apply, start, w, e);
        PKeeps(apply, start, w, e, any);
        moves := if Step(apply, any, w, a).state.d == w.d then [] else [D.Run(w.k.current, any)];
      } else if Elsewhere(w.k, ViewOf(w), e) {
        SysKeeps(apply, start, w, e);
      }
  }

  lemma CompletionServed<S, C, R>(apply: (S, C) -> (S, R), start: S, w: Hosted<S, C, R>)
    requires Coupled(apply, start, w) && w.d.pending > 0
    ensures var r := Up(apply, w, K.HandlerV(w.done), D.Interrupt);
            && !r.AssertFails?
            && (r.Next? ==>
                  && Coupled(apply, start, r.state) && K.Step(w.k, K.HandlerV(w.done)) == Next(r.state.k)
                  && D.Step(apply, w.d, D.Interrupt) == Next(r.state.d))
  {
    hide Coupled, Then, D.Step;
    CoupledParts(apply, start, w);
    HandlerIs(w.k, w.done);
    if w.k.cpu.On? || w.k.cpu.Asleep? {
      hide K.Step, Up, Hosts, K.Inv, D.Inv, Valued, ViewOf, ValuesKept, K.DoV;
      UpHosted(w.k, ViewOf(w), w.done);
      CompleteKeeps(apply, start, w);
    }
  }

  lemma DeviceAppends<S, C, R>(apply: (S, C) -> (S, R), d: D.Dev<S, C, R>, run: seq<D.Event<C>>, d': D.Dev<S, C, R>,
                               moves: seq<D.Event<C>>, d'': D.Dev<S, C, R>)
    requires D.Exec(apply, d, run) == Next(d')
    requires (moves == [] && d'' == d') || (|moves| == 1 && D.Step(apply, d', moves[0]) == Next(d''))
    ensures D.Exec(apply, d, run + moves) == Next(d'')
  {
    hide D.Step;
    if moves == [] {
      assert run + moves == run;
    } else {
      var more := run + moves;
      assert more[..|more| - 1] == run;
    }
  }

  /** Any run of threads and completion interrupts on the kernel fails no ASSERT and is, seen from the device, a run of
      the protocol and, seen from the kernel, a run of the kernel. */
  lemma {:induction false} RunProjects<S, C, R>(apply: (S, C) -> (S, R), any: C, w: Hosted<S, C, R>, run: seq<Act<C>>)
    returns (moves: seq<D.Event<C>>, events: seq<K.Event>)
    requires Initial(w)
    ensures var r := Exec(apply, any, w, run);
            && !r.AssertFails?
            && (r.Next? ==>
                  && Coupled(apply, w.d.state, r.state)
                  && D.Exec(apply, w.d, moves) == Next(r.state.d) && K.Exec(w.k, events) == Next(r.state.k))
  {
    hide Initial, Coupled, Step, K.Step, D.Step;
    if run == [] {
      InitialCoupled(apply, w);
      moves, events := [], [];
    } else {
      moves, events := RunProjects(apply, any, w, run[..|run| - 1]);
      var before := Exec(apply, any, w, run[..|run| - 1]);
      if before.Next? {
        var move, event := StepProjects(apply, any, w.d.state, before.state, run[|run| - 1]);
        var r := Step(apply, any, before.state, run[|run| - 1]);
        if r.Next? {
          DeviceAppends(apply, w.d, moves, before.state.d, move, r.state.d);
          KernelAppends(w.k, events, before.state.k, event, r.state.k);
          moves, events := moves + move, events + event;
        }
      }
    }
  }

  // ----- no deadlock -----

  ghost predicate AllAtP<S, C, R>(d: D.Dev<S, C, R>) { forall t :: t in d.pc ==> d.pc[t].Idle? || AtP(d.pc[t]) }

  lemma HaltedAtP<S, C, R>(apply: (S, C) -> (S, R), start: S, w: Hosted<S, C, R>)
    requires Coupled(apply, start, w) && Halted(w.k)
    ensures AllAtP(w.d)
  {
    CoupledParts(apply, start, w);
    hide Coupled, K.Inv, Hosts, Halted, AtP;
    forall t | t in w.d.pc ensures w.d.pc[t].Idle? || AtP(w.d.pc[t]) {
      HaltedHosts(w.k, ViewOf(w), t);
    }
  }

  lemma HaltedZero<S, C, R>(apply: (S, C) -> (S, R), start: S, w: Hosted<S, C, R>, t: Tid)
    requires Coupled(apply, start, w) && Halted(w.k) && t in w.d.pc && AtP(w.d.pc[t])
    ensures PSem(w, t) in w.k.sems && w.k.sems[PSem(w, t)].value == 0
  {
    hide *;
    CoupledParts(apply, start, w);
    WantsIs(w, t);
    HaltedHosts(w.k, ViewOf(w), t);
  }

  /** A thread waits for a completion only while one is scheduled or has come. */
  lemma AwaitsSomething<S, C, R>(apply: (S, C) -> (S, R), start: S, d: D.Dev<S, C, R>, t: Tid)
    requires D.Inv(apply, start, d) && t in d.pc && d.pc[t].Await?
    ensures d.pending + d.done == 1
  {
    hide D.Locked, D.Answered, D.Replay;
    assert D.Waiting(d, t);
  }

  lemma LockFree<S, C, R>(apply: (S, C) -> (S, R), start: S, d: D.Dev<S, C, R>)
    requires D.Inv(apply, start, d) && AllAtP(d) && forall t :: t in d.pc ==> !d.pc[t].Await?
    ensures d.value == 1
  {
    hide D.Signals, D.Answered, D.Replay;
    forall t | t in d.pc ensures D.Phases(d.pc)[t].Outside? {
    }
  }

  /** When the kernel has nothing left to run and no completion is scheduled, every thread is outside the protocol: it
      cannot deadlock, and no completion is lost. */
  lemma NoDeadlock<S, C, R>(apply: (S, C) -> (S, R), any: C, w: Hosted<S, C, R>, run: seq<Act<C>>, w': Hosted<S, C, R>)
    requires Initial(w) && Exec(apply, any, w, run) == Next(w') && Halted(w'.k) && w'.d.pending == 0
    ensures forall t :: t in w'.d.pc ==> w'.d.pc[t].Idle?
  {
    var moves, events := RunProjects(apply, any, w, run);
    var start := w.d.state;
    hide *;
    HaltedAtP(apply, start, w');
    CoupledParts(apply, start, w');
    forall t | t in w'.d.pc ensures !w'.d.pc[t].Await? {
      NoneAwaits(apply, start, w', t);
    }
    LockFree(apply, start, w'.d);
    forall t | t in w'.d.pc ensures w'.d.pc[t].Idle? {
      NoneQueues(apply, start, w', t);
    }
  }

  lemma NoneAwaits<S, C, R>(apply: (S, C) -> (S, R), start: S, w: Hosted<S, C, R>, t: Tid)
    requires Coupled(apply, start, w) && Halted(w.k) && w.d.pending == 0 && t in w.d.pc
    ensures !w.d.pc[t].Await?
  {
    if w.d.pc[t].Await? {
      HaltedZero(apply, start, w, t);
      CoupledParts(apply, start, w);
      hide Coupled, Halted, D.Inv, K.Inv, Hosts, ViewOf;
      AwaitsSomething(apply, start, w.d, t);
    }
  }

  lemma NoneQueues<S, C, R>(apply: (S, C) -> (S, R), start: S, w: Hosted<S, C, R>, t: Tid)
    requires Coupled(apply, start, w) && Halted(w.k) && AllAtP(w.d) && w.d.value == 1
    requires t in w.d.pc && !w.d.pc[t].Await?
    ensures w.d.pc[t].Idle?
  {
    if AtP(w.d.pc[t]) {
      HaltedZero(apply, start, w, t);
      CoupledParts(apply, start, w);
      hide Coupled, Halted, D.Inv, K.Inv, Hosts, ViewOf;
    }
  }

  /** There are such runs: boot, and make the device. */
  lemma Booted<S, C, R>(main: Tid, lock: Sid, done: Sid, state: S, threads: set<Tid>)
    requires lock != done
    ensures var k := K.Step(K.Step(K.Boot(main), K.NewSemaphore(lock, 1)).state, K.NewSemaphore(done, 0)).state;
            var d: D.Dev<S, C, R> := D.Dev(1, None, 0, false, 0, state, map t | t in threads :: D.Idle, [], 0);
            Initial(Hosted(k, d, lock, done))
  {
    KP.BootInv(main);
    KP.NewSemaphoreKeeps(K.Boot(main), lock, 1);
    KP.NewSemaphoreKeeps(K.Step(K.Boot(main), K.NewSemaphore(lock, 1)).state, done, 0);
  }
}
