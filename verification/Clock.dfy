/** Simulated time and the queue of pending interrupts (machine/interrupt.cc, with
    SortedList::Insert from lib/list.cc). */
module Clock {
  import Lists

  const USER_TICK := 1
  const SYSTEM_TICK := 10

  datatype IntStatus = IntOff | IntOn
  datatype MachineStatus = IdleMode | SystemMode | UserMode

  /** A scheduled interrupt; `ticket` numbers the calls of Schedule. */
  datatype Pending = Pending(device: int, when: int, ticket: nat)

  /** A request of a handler to schedule another interrupt. */
  datatype Request = Request(device: int, fromNow: int)

  /** What one run of an interrupt handler does to the clock. */
  datatype Response = Response(requests: seq<Request>, yieldOnReturn: bool)

  // ----- the sorted queue -----

  /** Earlier time first, and first scheduled first among equal times. */
  predicate Before(p: Pending, q: Pending) {
    p.when < q.when || (p.when == q.when && p.ticket < q.ticket)
  }

  ghost predicate InOrder(s: seq<Pending>) {
    forall i, j :: 0 <= i < j < |s| ==> Before(s[i], s[j])
  }

  /** SortedList::Insert: in front of the first later entry. */
  function Insert(s: seq<Pending>, p: Pending): (r: seq<Pending>)
    ensures |r| == |s| + 1
  {
    if s == [] then [p]
    else if p.when < s[0].when then [p] + s
    else [s[0]] + Insert(s[1..], p)
  }

  /** PendingCompare. */
  function Compare(x: Pending, y: Pending): int {
    if x.when < y.when then -1 else if x.when > y.when then 1 else 0
  }

  /** The queue's insertion is the sorted list's. */
  lemma {:induction false} InsertIsSorted(s: seq<Pending>, p: Pending)
    ensures Insert(s, p) == Lists.Inserted(s, p, Compare)
  {
    if s == [] || p.when < s[0].when {
    } else {
      InsertIsSorted(s[1..], p);
    }
  }

  lemma {:induction false} InsertKeepsOrder(s: seq<Pending>, p: Pending)
    requires InOrder(s) && forall q :: q in s ==> q.ticket < p.ticket
    ensures InOrder(Insert(s, p))
  {
    if s == [] || p.when < s[0].when {
    } else {
      InsertKeepsOrder(s[1..], p);
      InsertMembers(s[1..], p);
      var r := Insert(s[1..], p);
      forall i | 0 <= i < |r| ensures Before(s[0], r[i]) {
        if r[i] != p {
          var j :| 0 <= j < |s[1..]| && s[1..][j] == r[i];
          assert r[i] == s[j + 1];
        }
      }
    }
  }

  lemma {:induction false} InsertAdds(s: seq<Pending>, p: Pending)
    ensures multiset(Insert(s, p)) == multiset(s) + multiset{p}
  {
    if s == [] || p.when < s[0].when {
    } else {
      InsertAdds(s[1..], p);
      assert s == [s[0]] + s[1..];
    }
  }

  lemma {:induction false} InsertMembers(s: seq<Pending>, p: Pending)
    ensures forall i :: 0 <= i < |Insert(s, p)| ==> Insert(s, p)[i] == p || Insert(s, p)[i] in s
  {
    if s == [] || p.when < s[0].when {
    } else {
      InsertMembers(s[1..], p);
    }
  }

  /** How many entries are due at time `now`. */
  function Due(s: seq<Pending>, now: int): nat {
    if s == [] then 0 else (if s[0].when <= now then 1 else 0) + Due(s[1..], now)
  }

  lemma DueFront(s: seq<Pending>, now: int)
    requires s != [] && s[0].when <= now
    ensures Due(s[1..], now) == Due(s, now) - 1
  {
  }

  lemma {:induction false} InsertFuture(s: seq<Pending>, p: Pending, now: int)
    requires p.when > now
    ensures Due(Insert(s, p), now) == Due(s, now)
  {
    if s != [] && p.when >= s[0].when {
      InsertFuture(s[1..], p, now);
      assert Insert(s, p)[1..] == Insert(s[1..], p);
    } else {
      assert Insert(s, p)[1..] == s;
    }
  }

  lemma OrderAppend(a: seq<Pending>, b: seq<Pending>)
    requires InOrder(a + b)
    ensures InOrder(a) && InOrder(b) && forall p, q :: p in a && q in b ==> Before(p, q)
  {
    assert forall i :: 0 <= i < |a| ==> a[i] == (a + b)[i];
    assert forall i :: 0 <= i < |b| ==> b[i] == (a + b)[|a| + i];
  }

  lemma OrderJoin(a: seq<Pending>, b: seq<Pending>)
    requires InOrder(a) && InOrder(b) && forall p, q :: p in a && q in b ==> Before(p, q)
    ensures InOrder(a + b)
  {
  }

  /** A new, later interrupt goes after everything that has fired. */
  lemma ScheduleOrder(fired: seq<Pending>, pending: seq<Pending>, p: Pending)
    requires InOrder(fired + pending)
    requires forall q :: q in pending ==> q.ticket < p.ticket
    requires forall q :: q in fired ==> q.when < p.when
    ensures InOrder(fired + Insert(pending, p))
    ensures multiset(Insert(pending, p)) == multiset(pending) + multiset{p}
  {
    OrderAppend(fired, pending);
    InsertKeepsOrder(pending, p);
    InsertAdds(pending, p);
    var after := Insert(pending, p);
    forall f, q | f in fired && q in after ensures Before(f, q) {
      assert q in multiset(after);
      assert q == p || q in pending;
    }
    OrderJoin(fired, after);
  }

  /** The front of the queue is the earliest. */
  lemma FrontIsFirst(fired: seq<Pending>, pending: seq<Pending>)
    requires InOrder(fired + pending)
    ensures pending != [] ==> forall i :: 0 <= i < |pending| ==> pending[0].when <= pending[i].when
  {
    OrderAppend(fired, pending);
    if pending != [] {
      forall i | 0 <= i < |pending| ensures pending[0].when <= pending[i].when {
        assert i == 0 || Before(pending[0], pending[i]);
      }
    }
  }

  // ----- the history of the interrupts -----

  /** Every scheduled interrupt has fired or is pending, exactly once; they fire in the order of their times and, among
      equal times, of their scheduling; and none fires early. */
  ghost predicate Ledger(scheduled: seq<Pending>, fired: seq<Pending>, times: seq<int>, pending: seq<Pending>,
      now: int) {
    && (forall i :: 0 <= i < |scheduled| ==> scheduled[i].ticket == i)
    && multiset(fired) + multiset(pending) == multiset(scheduled)
    && InOrder(fired + pending)
    && |times| == |fired|
    && (forall i :: 0 <= i < |times| ==> fired[i].when <= times[i] <= now)
    && (forall i, j :: 0 <= i < j < |times| ==> times[i] <= times[j])
  }

  lemma LedgerTickets(scheduled: seq<Pending>, fired: seq<Pending>, times: seq<int>, pending: seq<Pending>, now: int)
    requires Ledger(scheduled, fired, times, pending, now)
    ensures forall p :: p in pending ==> p.ticket < |scheduled|
    ensures forall p :: p in fired ==> p.when <= now
  {
    hide InOrder;
    forall p | p in pending ensures p.ticket < |scheduled| {
      assert p in multiset(pending);
      assert p in multiset(scheduled);
    }
  }

  lemma LedgerSchedules(scheduled: seq<Pending>, fired: seq<Pending>, times: seq<int>, pending: seq<Pending>, now: int,
                        p: Pending)
    requires Ledger(scheduled, fired, times, pending, now) && p.ticket == |scheduled| && p.when > now
    ensures Ledger(scheduled + [p], fired, times, Insert(pending, p), now)
  {
    LedgerTickets(scheduled, fired, times, pending, now);
    hide InOrder, Insert;
    ScheduleOrder(fired, pending, p);
  }

  lemma LedgerFires(scheduled: seq<Pending>, fired: seq<Pending>, times: seq<int>, pending: seq<Pending>, now: int)
    requires Ledger(scheduled, fired, times, pending, now) && pending != [] && pending[0].when <= now
    ensures Ledger(scheduled, fired + [pending[0]], times + [now], pending[1..], now)
  {
    hide InOrder;
    assert pending == [pending[0]] + pending[1..];
    assert fired + pending == (fired + [pending[0]]) + pending[1..];
  }

  lemma LedgerLater(scheduled: seq<Pending>, fired: seq<Pending>, times: seq<int>, pending: seq<Pending>, now: int,
      later: int)
    requires Ledger(scheduled, fired, times, pending, now) && now <= later
    ensures Ledger(scheduled, fired, times, pending, later)
  {
    hide InOrder;
  }

  /** The front of the queue is the earliest. */
  lemma LedgerFront(scheduled: seq<Pending>, fired: seq<Pending>, times: seq<int>, pending: seq<Pending>, now: int)
    requires Ledger(scheduled, fired, times, pending, now)
    ensures pending != [] ==> forall i :: 0 <= i < |pending| ==> pending[0].when <= pending[i].when
  {
    hide InOrder;
    FrontIsFirst(fired, pending);
  }

  lemma LedgerTimes(scheduled: seq<Pending>, fired: seq<Pending>, times: seq<int>, pending: seq<Pending>, now: int)
    requires Ledger(scheduled, fired, times, pending, now) && Punctual(fired, times)
    ensures |times| == |fired|
    ensures forall i :: 0 <= i < |times| ==> fired[i].when <= times[i] < fired[i].when + SYSTEM_TICK
  {
  }

  // ----- nothing fires late -----

  /** What fired did so less than one tick after its time. */
  ghost predicate Punctual(fired: seq<Pending>, times: seq<int>) {
    |times| == |fired| && forall i :: 0 <= i < |times| ==> times[i] < fired[i].when + SYSTEM_TICK
  }

  /** What is pending is less than one tick overdue. */
  ghost predicate Recent(pending: seq<Pending>, now: int) {
    forall i :: 0 <= i < |pending| ==> now < pending[i].when + SYSTEM_TICK
  }

  lemma PunctualFires(fired: seq<Pending>, times: seq<int>, pending: seq<Pending>, now: int)
    requires Punctual(fired, times) && Recent(pending, now) && pending != []
    ensures Punctual(fired + [pending[0]], times + [now]) && Recent(pending[1..], now)
  {
  }

  lemma RecentSchedules(pending: seq<Pending>, now: int, p: Pending)
    requires Recent(pending, now) && p.when > now
    ensures Recent(Insert(pending, p), now)
  {
    InsertMembers(pending, p);
    hide Insert;
  }

  // ----- where the interrupts come from -----

  /** A call of Schedule by the kernel or a device, or the n-th run of a handler, with the time. */
  datatype Source = ByCall(request: Request, at: int) | ByHandler(n: nat, device: int, at: int)

  type Handler = (nat, int) -> Response

  function RequestsOf(handler: Handler, s: Source): seq<Request> {
    match s
    case ByCall(request, _) => [request]
    case ByHandler(n, device, _) => handler(n, device).requests
  }

  /** The interrupts that requests made at one time stand for, numbered from `ticket`. */
  function Entries(requests: seq<Request>, at: int, ticket: nat): (r: seq<Pending>)
    ensures |r| == |requests|
  {
    if requests == [] then []
    else
      var q := requests[|requests| - 1];
      Entries(requests[..|requests| - 1], at, ticket) + [Pending(q.device, at + q.fromNow, ticket + |requests| - 1)]
  }

  /** Everything the sources ask for, in order. */
  function Demanded(handler: Handler, sources: seq<Source>): seq<Pending> {
    if sources == [] then []
    else
      var (before, s) := (Demanded(handler, sources[..|sources| - 1]), sources[|sources| - 1]);
      before + Entries(RequestsOf(handler, s), s.at, |before|)
  }

  /** The runs of handlers among the sources. */
  function Ran(sources: seq<Source>): seq<Source> {
    if sources == [] then []
    else
      var s := sources[|sources| - 1];
      Ran(sources[..|sources| - 1]) + if s.ByHandler? then [s] else []
  }

  /** What the calls of Schedule among the sources asked for. */
  function Called(sources: seq<Source>): seq<Request> {
    if sources == [] then []
    else
      var s := sources[|sources| - 1];
      Called(sources[..|sources| - 1]) + if s.ByCall? then [s.request] else []
  }

  /** One run of its own device's handler for each interrupt fired, when it fired. */
  function RunsFor(fired: seq<Pending>, times: seq<int>): seq<Source>
    requires |fired| == |times|
  {
    if fired == [] then []
    else
      var n := |fired| - 1;
      RunsFor(fired[..n], times[..n]) + [ByHandler(n, fired[n].device, times[n])]
  }

  /** Everything ever scheduled is what the calls of Schedule and the handlers of the fired interrupts asked for, no
      more and no less. */
  ghost predicate Traced(handler: Handler, sources: seq<Source>, scheduled: seq<Pending>, fired: seq<Pending>,
                         times: seq<int>) {
    |fired| == |times| && scheduled == Demanded(handler, sources) && Ran(sources) == RunsFor(fired, times)
  }

  lemma EntriesOne(requests: seq<Request>, i: nat, at: int, ticket: nat)
    requires i < |requests|
    ensures Entries(requests[..i + 1], at, ticket)
         == Entries(requests[..i], at, ticket)
            + [Pending(requests[i].device, at + requests[i].fromNow, ticket + |Entries(requests[..i], at, ticket)|)]
  {
    assert requests[..i + 1][..i] == requests[..i];
  }

  lemma EntriesAll(requests: seq<Request>, at: int, ticket: nat)
    ensures Entries(requests[..0], at, ticket) == []
    ensures Entries(requests[..|requests|], at, ticket) == Entries(requests, at, ticket)
  {
    assert requests[..|requests|] == requests;
  }

  lemma TracedCall(handler: Handler, sources: seq<Source>, scheduled: seq<Pending>, fired: seq<Pending>,
                   times: seq<int>, q: Request, at: int)
    requires Traced(handler, sources, scheduled, fired, times)
    ensures Traced(handler, sources + [ByCall(q, at)], scheduled + [Pending(q.device, at + q.fromNow, |scheduled|)],
                   fired, times)
    ensures Called(sources + [ByCall(q, at)]) == Called(sources) + [q]
  {
    assert (sources + [ByCall(q, at)])[..|sources|] == sources;
    assert [q][..0] == [];
    hide RunsFor;
  }

  lemma TracedRun(handler: Handler, sources: seq<Source>, scheduled: seq<Pending>, fired: seq<Pending>,
                  times: seq<int>, p: Pending, at: int)
    requires Traced(handler, sources, scheduled, fired, times)
    ensures var s := ByHandler(|fired|, p.device, at);
            var more := Entries(handler(|fired|, p.device).requests, at, |scheduled|);
            && Traced(handler, sources + [s], scheduled + more, fired + [p], times + [at])
            && Called(sources + [s]) == Called(sources)
  {
    var s := ByHandler(|fired|, p.device, at);
    assert (sources + [s])[..|sources|] == sources;
    assert (fired + [p])[..|fired|] == fired && (times + [at])[..|times|] == times;
    hide Entries;
  }

  /** One of the handlers that ran for fired[from..] asked for a context switch. */
  ghost predicate SomeYields(handler: Handler, fired: seq<Pending>, from: nat) {
    exists n :: from <= n < |fired| && handler(n, fired[n].device).yieldOnReturn
  }

  lemma SomeYieldsMore(handler: Handler, fired: seq<Pending>, from: nat, p: Pending)
    requires from <= |fired|
    ensures SomeYields(handler, fired + [p], from)
       <==> SomeYields(handler, fired, from) || handler(|fired|, p.device).yieldOnReturn
  {
    var more := fired + [p];
    assert more[|fired|] == p;
    if SomeYields(handler, fired, from) {
      var n :| from <= n < |fired| && handler(n, fired[n].device).yieldOnReturn;
      assert more[n] == fired[n];
    }
    if handler(|fired|, p.device).yieldOnReturn {
      assert handler(|fired|, more[|fired|].device).yieldOnReturn;
    }
  }

  lemma NoneYields(handler: Handler, fired: seq<Pending>)
    ensures !SomeYields(handler, fired, |fired|)
  {
  }

  // ----- the interrupt hardware -----

  /** A call of the kernel on the interrupt hardware. */
  datatype Call = Schedule(device: int, fromNow: int) | Tick | Idle | SetLevel(now: IntStatus)

  /** The ASSERTs on the caller: a positive delay, and interrupts off in Idle. */
  predicate Allowed(c: Call, level: IntStatus) {
    (c.Schedule? ==> c.fromNow > 0) && (c.Idle? ==> level == IntOff)
  }

  function LevelAfter(c: Call, level: IntStatus): IntStatus {
    match c
    case Schedule(_, _) | Idle => level
    case Tick => IntOn
    case SetLevel(now) => now
  }

  predicate AllAllowed(calls: seq<Call>, level: IntStatus) {
    calls == [] || (Allowed(calls[0], level) && AllAllowed(calls[1..], LevelAfter(calls[0], level)))
  }

  /** The calls that let a tick of time pass. */
  predicate TakesTick(c: Call, level: IntStatus) {
    c.Tick? || (c.SetLevel? && level == IntOff && c.now == IntOn)
  }

  function TickOf(status: MachineStatus): int { if status == SystemMode then SYSTEM_TICK else USER_TICK }

  /** How long a call takes: a tick, or for Idle until the next interrupt. */
  function Elapsed(c: Call, level: IntStatus, status: MachineStatus, pending: seq<Pending>, now: int): int {
    if TakesTick(c, level) then TickOf(status)
    else if c.Idle? && pending != [] then pending[0].when - now
    else 0
  }

  /** The level after some calls, and how many of them let a tick pass. */
  function LevelIn(calls: seq<Call>, level: IntStatus): IntStatus {
    if calls == [] then level else LevelAfter(calls[|calls| - 1], LevelIn(calls[..|calls| - 1], level))
  }

  function TicksIn(calls: seq<Call>, level: IntStatus): nat {
    if calls == [] then 0
    else
      var front := calls[..|calls| - 1];
      TicksIn(front, level) + if TakesTick(calls[|calls| - 1], LevelIn(front, level)) then 1 else 0
  }

  lemma OneCallMore(calls: seq<Call>, i: nat, level: IntStatus)
    requires i < |calls|
    ensures AskedIn(calls[..i + 1]) == AskedIn(calls[..i]) + AskedBy(calls[i])
    ensures LevelIn(calls[..i + 1], level) == LevelAfter(calls[i], LevelIn(calls[..i], level))
    ensures TicksIn(calls[..i + 1], level)
         == TicksIn(calls[..i], level) + if TakesTick(calls[i], LevelIn(calls[..i], level)) then 1 else 0
  {
    assert calls[..i + 1][..i] == calls[..i];
  }

  /** What a call asks to be scheduled. */
  function AskedBy(c: Call): seq<Request> { if c.Schedule? then [Request(c.device, c.fromNow)] else [] }

  function AskedIn(calls: seq<Call>): seq<Request> {
    if calls == [] then [] else AskedIn(calls[..|calls| - 1]) + AskedBy(calls[|calls| - 1])
  }

  class Interrupt {
    /** The n-th run of a handler, if it is the device's. */
    const handler: Handler

    var level: IntStatus
    var pending: seq<Pending>
    var inHandler: bool
    var yieldOnReturn: bool
    var status: MachineStatus
    var totalTicks: int
    var idleTicks: int
    var systemTicks: int
    var userTicks: int

    var nextTicket: nat
    var firings: nat

    ghost var scheduled: seq<Pending>  // everything ever scheduled
    ghost var fired: seq<Pending>      // what has fired, in order
    ghost var times: seq<int>          // and when
    ghost var sources: seq<Source>     // who asked for what was scheduled

    /** Handlers obey the ASSERT of Schedule. */
    ghost predicate HandlersObey() {
      forall n, d, i :: 0 <= i < |handler(n, d).requests| ==> handler(n, d).requests[i].fromNow > 0
    }

    /** The history over the whole run so far is in order, and all time is accounted for. */
    ghost predicate Recorded()
      reads this
    {
      && HandlersObey()
      && totalTicks == idleTicks + systemTicks + userTicks
      && nextTicket == |scheduled| && firings == |fired|
      && Ledger(scheduled, fired, times, pending, totalTicks)
    }

    ghost predicate Valid()
      reads this
    {
      Recorded() && Traced(handler, sources, scheduled, fired, times)
    }

    /** Nothing pending is due. */
    ghost predicate Quiet()
      reads this
    {
      forall i :: 0 <= i < |pending| ==> pending[i].when > totalTicks
    }

    /** Nothing has fired late, and nothing pending is late yet. */
    ghost predicate OnTime()
      reads this
    {
      Punctual(fired, times) && Recent(pending, totalTicks)
    }

    constructor (handler: Handler)
      requires forall n, d, i :: 0 <= i < |handler(n, d).requests| ==> handler(n, d).requests[i].fromNow > 0
      ensures Valid() && Quiet() && OnTime() && level == IntOff && !inHandler && !yieldOnReturn && status == SystemMode
      ensures this.handler == handler && scheduled == [] && sources == [] && totalTicks == 0
    {
      this.handler := handler;
      level, pending, inHandler, yieldOnReturn, status := IntOff, [], false, false, SystemMode;
      totalTicks, idleTicks, systemTicks, userTicks := 0, 0, 0, 0;
      nextTicket, firings, scheduled, fired, times, sources := 0, 0, [], [], [], [];
    }

    /** The sorted list gets one more. */
    method Enter(device: int, fromNow: int)
      requires Recorded() && fromNow > 0
      modifies this`pending, this`nextTicket, this`scheduled
      ensures Recorded()
      ensures scheduled == old(scheduled) + [Pending(device, totalTicks + fromNow, |old(scheduled)|)]
      ensures pending == Insert(old(pending), scheduled[|scheduled| - 1])
      ensures old(Quiet()) ==> Quiet()
      ensures old(OnTime()) ==> OnTime()
      ensures Due(pending, totalTicks) == Due(old(pending), totalTicks)
    {
      var toOccur := Pending(device, totalTicks + fromNow, nextTicket);
      hide Insert, Due, Ledger, HandlersObey, Punctual, Recent;
      if Recent(pending, totalTicks) {
        RecentSchedules(pending, totalTicks, toOccur);
      }
      InsertFuture(pending, toOccur, totalTicks);
      InsertMembers(pending, toOccur);
      LedgerSchedules(scheduled, fired, times, pending, totalTicks, toOccur);
      pending := Insert(pending, toOccur);
      nextTicket, scheduled := nextTicket + 1, scheduled + [toOccur];
    }

    /** Interrupt::Schedule. */
    method Schedule(device: int, fromNow: int)
      requires Valid() && fromNow > 0
      modifies this`pending, this`nextTicket, this`scheduled, this`sources
      ensures Valid()
      ensures sources == old(sources) + [ByCall(Request(device, fromNow), totalTicks)]
      ensures scheduled == old(scheduled) + [Pending(device, totalTicks + fromNow, |old(scheduled)|)]
      ensures Called(sources) == Called(old(sources)) + [Request(device, fromNow)]
      ensures pending == Insert(old(pending), scheduled[|scheduled| - 1])
      ensures old(Quiet()) ==> Quiet()
      ensures old(OnTime()) ==> OnTime()
    {
      hide Insert, Due, Ledger, HandlersObey, Punctual, Recent, Traced, Called;
      var q := Request(device, fromNow);
      TracedCall(handler, sources, scheduled, fired, times, q, totalTicks);
      Enter(device, fromNow);
      sources := sources + [ByCall(q, totalTicks)];
    }

    /** CallBack: the handler of the interrupt that has just been taken off the list runs, with interrupts disabled, and
        schedules what it likes, always later. */
    method CallBack(n: nat, device: int)
      requires Recorded() && level == IntOff && inHandler
      modifies this`pending, this`nextTicket, this`scheduled, this`yieldOnReturn
      ensures Recorded() && yieldOnReturn == (old(yieldOnReturn) || handler(n, device).yieldOnReturn)
      ensures scheduled == old(scheduled) + Entries(handler(n, device).requests, totalTicks, |old(scheduled)|)
      ensures old(OnTime()) ==> OnTime()
      ensures Due(pending, totalTicks) == Due(old(pending), totalTicks)
    {
      hide Insert, Due, Ledger, Punctual, Recent, Entries;
      var response := handler(n, device);
      ghost var (asked, ticket) := (response.requests, |scheduled|);
      EntriesAll(asked, totalTicks, ticket);
      for i := 0 to |response.requests|
        invariant Recorded() && (old(OnTime()) ==> OnTime()) && yieldOnReturn == old(yieldOnReturn)
        invariant scheduled == old(scheduled) + Entries(asked[..i], totalTicks, ticket)
        invariant Due(pending, totalTicks) == Due(old(pending), totalTicks)
      {
        EntriesOne(asked, i, totalTicks, ticket);
        Enter(response.requests[i].device, response.requests[i].fromNow);
      }
      yieldOnReturn := yieldOnReturn || response.yieldOnReturn;
    }

    /** One pass of the firing loop: the front of the queue fires. */
    method FireFront()
      requires Valid() && level == IntOff && inHandler && pending != [] && pending[0].when <= totalTicks
      modifies this`pending, this`nextTicket, this`scheduled, this`yieldOnReturn, this`firings, this`fired, this`times,
        this`sources
      ensures Valid() && old(scheduled) <= scheduled && Called(sources) == Called(old(sources))
      ensures fired == old(fired) + [old(pending)[0]] && times == old(times) + [totalTicks]
      ensures yieldOnReturn == (old(yieldOnReturn) || handler(|old(fired)|, old(pending)[0].device).yieldOnReturn)
      ensures old(OnTime()) ==> OnTime()
      ensures Due(pending, totalTicks) == Due(old(pending), totalTicks) - 1
    {
      hide Insert, Due, Ledger, HandlersObey, Punctual, Recent, Traced, Called, Entries;
      DueFront(pending, totalTicks);
      if OnTime() {
        PunctualFires(fired, times, pending, totalTicks);
      }
      LedgerFires(scheduled, fired, times, pending, totalTicks);
      var next := pending[0];
      TracedRun(handler, sources, scheduled, fired, times, next, totalTicks);
      pending := pending[1..];
      firings, fired := firings + 1, fired + [next];
      times := times + [totalTicks];
      CallBack(firings - 1, next.device);
      sources := sources + [ByHandler(firings - 1, next.device, totalTicks)];
    }

    /** The firing loop of CheckIfDue: every interrupt that is due fires, in order;
        it ends because a handler can only schedule into the future. */
    method FireAll()
      requires Valid() && level == IntOff && inHandler && pending != [] && pending[0].when <= totalTicks
      modifies this`pending, this`nextTicket, this`scheduled, this`yieldOnReturn, this`firings, this`fired, this`times,
        this`sources
      ensures Valid() && Quiet() && (old(OnTime()) ==> OnTime())
      ensures old(scheduled) <= scheduled && old(fired) < fired && Called(sources) == Called(old(sources))
      ensures yieldOnReturn == (old(yieldOnReturn) || SomeYields(handler, fired, |old(fired)|))
    {
      hide Due, Ledger, HandlersObey, Punctual, Recent, Traced, Called, SomeYields;
      NoneYields(handler, fired);
      SomeYieldsMore(handler, fired, |fired|, pending[0]);
      FireFront();
      while pending != [] && pending[0].when <= totalTicks
        invariant Valid() && old(scheduled) <= scheduled && old(fired) < fired && (old(OnTime()) ==> OnTime())
        invariant Called(sources) == Called(old(sources))
        invariant yieldOnReturn == (old(yieldOnReturn) || SomeYields(handler, fired, |old(fired)|))
        decreases Due(pending, totalTicks)
      {
        SomeYieldsMore(handler, fired, |old(fired)|, pending[0]);
        FireFront();
      }
      LedgerFront(scheduled, fired, times, pending, totalTicks);
    }

    /** Interrupt::CheckIfDue: afterwards nothing due is left. */
    method CheckIfDue(advanceClock: bool) returns (any: bool)
      requires Valid() && level == IntOff
      modifies this
      ensures Valid() && Quiet() && level == IntOff && status == old(status)
      ensures (old(OnTime()) ==> OnTime()) && inHandler == (if any then false else old(inHandler))
      ensures old(scheduled) <= scheduled && old(fired) <= fired && Called(sources) == Called(old(sources))
      ensures any <==> old(pending) != [] && (advanceClock || old(pending)[0].when <= old(totalTicks))
      ensures any <==> |fired| > |old(fired)|
      ensures !any ==> pending == old(pending) && scheduled == old(scheduled)
      ensures yieldOnReturn == (old(yieldOnReturn) || SomeYields(handler, fired, |old(fired)|))
      ensures totalTicks
           == if any && old(pending)[0].when > old(totalTicks) then old(pending)[0].when else old(totalTicks)
      ensures systemTicks == old(systemTicks) && userTicks == old(userTicks)
    {
      hide Due, Ledger, HandlersObey, Punctual, Traced, Called, SomeYields;
      LedgerFront(scheduled, fired, times, pending, totalTicks);
      NoneYields(handler, fired);
      if pending == [] {
        return false;
      }
      var next := pending[0];
      if next.when > totalTicks {
        if !advanceClock {
          return false;
        }
        LedgerLater(scheduled, fired, times, pending, totalTicks, next.when);
        idleTicks := idleTicks + (next.when - totalTicks);
        totalTicks := next.when;
      }
      hide Recent;
      inHandler := true;
      FireAll();
      inHandler := false;
      return true;
    }

    /** One tick's worth of simulated time. */
    method Advance()
      requires Valid()
      modifies this`totalTicks, this`systemTicks, this`userTicks
      ensures Valid() && totalTicks == old(totalTicks) + TickOf(status)
      ensures systemTicks == old(systemTicks) + if status == SystemMode then SYSTEM_TICK else 0
      ensures userTicks == old(userTicks) + if status == SystemMode then 0 else USER_TICK
      ensures old(Quiet() && OnTime()) ==> OnTime()
    {
      hide Ledger, HandlersObey, Punctual, Traced;
      LedgerLater(scheduled, fired, times, pending, totalTicks,
                  totalTicks + TickOf(status));
      if status == SystemMode {
        totalTicks := totalTicks + SYSTEM_TICK;
        systemTicks := systemTicks + SYSTEM_TICK;
      } else {
        totalTicks := totalTicks + USER_TICK;
        userTicks := userTicks + USER_TICK;
      }
    }

    /** Interrupt::OneTick, up to the context switch a handler may have asked for;
        the result says whether one happens. */
    method OneTick() returns (switching: bool)
      requires Valid()
      modifies this
      ensures Valid() && Quiet() && level == IntOn && !yieldOnReturn && status == old(status)
      ensures !old(inHandler) ==> !inHandler
      ensures old(Quiet() && OnTime()) ==> OnTime()
      ensures switching <==> old(yieldOnReturn) || SomeYields(handler, fired, |old(fired)|)
      ensures totalTicks == old(totalTicks) + TickOf(old(status))
      ensures systemTicks == old(systemTicks) + if old(status) == SystemMode then SYSTEM_TICK else 0
      ensures userTicks == old(userTicks) + if old(status) == SystemMode then 0 else USER_TICK
      ensures idleTicks == old(idleTicks)
      ensures old(scheduled) <= scheduled && old(fired) <= fired && Called(sources) == Called(old(sources))
    {
      hide Ledger, HandlersObey, Punctual, Recent, Traced, Called, SomeYields;
      Advance();
      level := IntOff;
      var _ := CheckIfDue(false);
      level := IntOn;
      switching := yieldOnReturn;
      yieldOnReturn := false;
    }

    /** Interrupt::Idle; the machine halts when there is nothing to wait for. */
    method Idle() returns (halts: bool)
      requires Valid() && Quiet() && level == IntOff
      modifies this
      ensures Valid() && Quiet() && level == IntOff && status == if halts then IdleMode else SystemMode
      ensures !old(inHandler) ==> !inHandler
      ensures old(OnTime()) ==> OnTime()
      ensures halts <==> old(pending) == []
      ensures halts ==> pending == [] && totalTicks == old(totalTicks)
      ensures !halts ==> totalTicks == old(pending)[0].when && |fired| > |old(fired)|
      ensures yieldOnReturn == (old(yieldOnReturn) || SomeYields(handler, fired, |old(fired)|))
      ensures systemTicks == old(systemTicks) && userTicks == old(userTicks)
      ensures old(scheduled) <= scheduled && old(fired) <= fired && Called(sources) == Called(old(sources))
    {
      hide Ledger, HandlersObey, Punctual, Recent, Traced, Called, SomeYields;
      status := IdleMode;
      var any := CheckIfDue(true);
      if any {
        status := SystemMode;
      }
      halts := !any;
    }

    /** Interrupt::SetLevel: time passes only when interrupts are re-enabled. */
    method SetLevel(now: IntStatus) returns (was: IntStatus, switching: bool)
      requires Valid() && (now == IntOff || !inHandler)
      modifies this
      ensures Valid() && level == now && was == old(level) && status == old(status)
      ensures old(Quiet()) || (was == IntOff && now == IntOn) ==> Quiet()
      ensures !old(inHandler) ==> !inHandler
      ensures old(Quiet() && OnTime()) ==> OnTime()
      ensures was == IntOn || now == IntOff ==>
                && totalTicks == old(totalTicks) && fired == old(fired) && pending == old(pending) && !switching
                && systemTicks == old(systemTicks) && userTicks == old(userTicks)
      ensures was == IntOff && now == IntOn ==>
                && totalTicks == old(totalTicks) + TickOf(status)
                && systemTicks == old(systemTicks) + (if status == SystemMode then SYSTEM_TICK else 0)
                && userTicks == old(userTicks) + (if status == SystemMode then 0 else USER_TICK)
                && (switching <==> old(yieldOnReturn) || SomeYields(handler, fired, |old(fired)|))
      ensures old(scheduled) <= scheduled && old(fired) <= fired && Called(sources) == Called(old(sources))
    {
      hide Ledger, HandlersObey, Punctual, Recent, Traced, Called, SomeYields;
      was := level;
      level := now;
      switching := false;
      if now == IntOn && was == IntOff {
        switching := OneTick();
      }
    }

    /** One call of the kernel, from outside a handler. */
    method Serve(call: Call) returns (halts: bool)
      requires Valid() && Quiet() && OnTime() && !inHandler && Allowed(call, level)
      modifies this
      ensures Valid() && Quiet() && OnTime() && !inHandler && level == LevelAfter(call, old(level))
      ensures (halts <==> call.Idle? && old(pending) == []) && (halts ==> pending == [])
      ensures old(scheduled) <= scheduled && old(fired) <= fired
      ensures Called(sources) == Called(old(sources)) + AskedBy(call)
      ensures totalTicks
           == old(totalTicks) + Elapsed(call, old(level), old(status), old(pending), old(totalTicks))
      ensures status == if call.Idle? then if halts then IdleMode else SystemMode else old(status)
      ensures var tick := if TakesTick(call, old(level)) then TickOf(old(status)) else 0;
              && systemTicks == old(systemTicks) + (if old(status) == SystemMode then tick else 0)
              && userTicks == old(userTicks) + (if old(status) == SystemMode then 0 else tick)
    {
      hide Ledger, HandlersObey, Punctual, Recent, Traced, Called, SomeYields;
      halts := false;
      match call
      case Schedule(device, fromNow) => Schedule(device, fromNow);
      case Tick => var _ := OneTick();
      case Idle => halts := Idle();
      case SetLevel(now) => var _, _ := SetLevel(now);
    }

    /** Any sequence of calls, up to a halt: no ASSERT fails, nothing is left due between two calls, over the whole run
        no interrupt fires early or as much as a tick late, and everything scheduled is what the calls of Schedule and
        the handlers of the fired interrupts asked for. */
    method ServeAll(calls: seq<Call>) returns (done: nat)
      requires Valid() && Quiet() && OnTime() && !inHandler && AllAllowed(calls, level)
      modifies this
      ensures Valid() && Quiet() && OnTime() && !inHandler
      ensures done <= |calls| && (done < |calls| ==> done > 0 && calls[done - 1].Idle? && pending == [])
      ensures old(scheduled) <= scheduled && old(fired) <= fired
      ensures Traced(handler, sources, scheduled, fired, times)
      ensures Called(sources) == Called(old(sources)) + AskedIn(calls[..done])
      ensures level == LevelIn(calls[..done], old(level))
      ensures (systemTicks - old(systemTicks)) + SYSTEM_TICK * (userTicks - old(userTicks))
           == SYSTEM_TICK * TicksIn(calls[..done], old(level))
      ensures forall i :: 0 <= i < |times| ==> fired[i].when <= times[i] < fired[i].when + SYSTEM_TICK
    {
      hide Ledger, HandlersObey, Punctual, Recent, Allowed, LevelAfter, Traced, Called, AskedBy, TakesTick, Elapsed;
      done := 0;
      var halts := false;
      assert AskedIn(calls[..0]) == [] && LevelIn(calls[..0], level) == level && TicksIn(calls[..0], level) == 0;
      hide AskedIn, LevelIn, TicksIn;
      while done < |calls| && !halts
        invariant Valid() && Quiet() && OnTime() && !inHandler && done <= |calls|
        invariant AllAllowed(calls[done..], level)
        invariant halts ==> done > 0 && calls[done - 1].Idle? && pending == []
        invariant old(scheduled) <= scheduled && old(fired) <= fired
        invariant Called(sources) == Called(old(sources)) + AskedIn(calls[..done])
        invariant level == LevelIn(calls[..done], old(level))
        invariant (systemTicks - old(systemTicks)) + SYSTEM_TICK * (userTicks - old(userTicks))
               == SYSTEM_TICK * TicksIn(calls[..done], old(level))
      {
        assert calls[done..][0] == calls[done] && calls[done..][1..] == calls[done + 1..];
        OneCallMore(calls, done, old(level));
        halts := Serve(calls[done]);
        done := done + 1;
      }
      LedgerTimes(scheduled, fired, times, pending, totalTicks);
    }
  }
}
