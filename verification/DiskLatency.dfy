/** How long a disk request takes: seek, rotation, transfer and the track buffer (machine/disk.cc). */
module DiskLatency {

  const ROTATION_TIME: int := 500
  const SEEK_TIME: int := 500
  const SECTORS_PER_TRACK: int := 32
  const NUM_SECTORS: int := 1024

  /** Where the arm is, and since when the track buffer has been filling. */
  datatype Head = Head(lastSector: int, bufferInit: int)

  ghost predicate IsSector(s: int) { 0 <= s < NUM_SECTORS }

  function Track(s: int): int { s / SECTORS_PER_TRACK }

  function Seek(last: int, s: int): (t: int)
    ensures t >= 0
  {
    (if Track(s) < Track(last) then Track(last) - Track(s) else Track(s) - Track(last)) * SEEK_TIME
  }

  /** The wait for a sector boundary at time t. */
  function Rotation(t: int): (r: int)
    ensures 0 <= r < ROTATION_TIME && (t + r) % ROTATION_TIME == 0
  {
    var over := t % ROTATION_TIME;
    if over > 0 then ROTATION_TIME - over else 0
  }

  /** When the head is on the track of s and at a sector boundary. */
  function Settled(now: int, last: int, s: int): (t: int)
    ensures now + Seek(last, s) <= t < now + Seek(last, s) + ROTATION_TIME && t % ROTATION_TIME == 0
  {
    now + Seek(last, s) + Rotation(now + Seek(last, s))
  }

  function ModuloDiff(to: int, from: int): (d: int)
    ensures 0 <= d < SECTORS_PER_TRACK && (from + d) % SECTORS_PER_TRACK == to % SECTORS_PER_TRACK
  {
    (to % SECTORS_PER_TRACK - from % SECTORS_PER_TRACK + SECTORS_PER_TRACK) % SECTORS_PER_TRACK
  }

  /** The track buffer's test.  Where the source's truncating division differs from this one the
      dividend is negative, and both quotients fail the test. */
  predicate Hit(now: int, head: Head, s: int, writing: bool) {
    && !writing && Seek(head.lastSector, s) == 0
    && (Settled(now, head.lastSector, s) - head.bufferInit) / ROTATION_TIME
       > ModuloDiff(s, head.bufferInit / ROTATION_TIME)
  }

  function Unbuffered(now: int, head: Head, s: int): int {
    var seek := Seek(head.lastSector, s);
    var timeAfter := Settled(now, head.lastSector, s);
    seek + Rotation(now + seek) + ModuloDiff(s, timeAfter / ROTATION_TIME) * ROTATION_TIME + ROTATION_TIME
  }

  /** ComputeLatency. */
  function Latency(now: int, head: Head, s: int, writing: bool): int {
    if Hit(now, head, s, writing) then ROTATION_TIME else Unbuffered(now, head, s)
  }

  /** UpdateLast. */
  function Update(now: int, head: Head, s: int): Head {
    Head(s, if Seek(head.lastSector, s) != 0 then Settled(now, head.lastSector, s) else head.bufferInit)
  }

  // ----- what a seek costs -----

  /** The arm crosses the tracks between one by one: nothing on the same track, SEEK_TIME to a neighbour, as much there
      as back, and on the way over any track between, the sum of both parts. */
  lemma SeekCosts(a: int, b: int, c: int)
    ensures Track(a) == Track(b) ==> Seek(a, b) == 0
    ensures Track(a) + 1 == Track(b) ==> Seek(a, b) == SEEK_TIME
    ensures Seek(a, b) == Seek(b, a)
    ensures Track(a) <= Track(b) <= Track(c) || Track(c) <= Track(b) <= Track(a) ==>
              Seek(a, c) == Seek(a, b) + Seek(b, c)
  {
  }

  /** So it is determined: a function of the tracks with these properties is the seek time. */
  lemma {:induction false} OnlySeek(cost: (int, int) -> int, a: int, b: int)
    requires forall s: int, t: int :: Track(s) == Track(t) ==> cost(s, t) == 0
    requires forall s: int, t: int :: Track(s) + 1 == Track(t) ==> cost(s, t) == SEEK_TIME
    requires forall s: int, t: int :: cost(s, t) == cost(t, s)
    requires forall s: int, t: int, u: int :: Track(s) <= Track(t) <= Track(u) ==> cost(s, u) == cost(s, t) + cost(t, u)
    ensures cost(a, b) == Seek(a, b)
    decreases if Track(a) <= Track(b) then Track(b) - Track(a) else Track(a) - Track(b),
              if Track(a) <= Track(b) then 0 else 1
  {
    if Track(a) == Track(b) {
    } else if Track(a) < Track(b) {
      var next := a + SECTORS_PER_TRACK;
      assert Track(next) == Track(a) + 1;
      OnlySeek(cost, next, b);
      SeekCosts(a, next, b);
      assert cost(a, b) == cost(a, next) + cost(next, b);
    } else {
      OnlySeek(cost, b, a);
      SeekCosts(a, b, b);
      assert cost(a, b) == cost(b, a);
    }
  }

  // ----- what is under the head -----

  /** At time t the head is at the start of sector s of its track. */
  predicate UnderHead(t: int, s: int) {
    t % ROTATION_TIME == 0 && (t / ROTATION_TIME) % SECTORS_PER_TRACK == s % SECTORS_PER_TRACK
  }

  /** Sector s has gone all the way past the head between two times. */
  ghost predicate Passed(from: int, to: int, s: int) {
    exists t :: from <= t && t + ROTATION_TIME <= to && UnderHead(t, s)
  }

  /** The first time from `from`, a sector boundary, on which s is under the head. */
  function FirstPass(from: int, s: int): int {
    from + ModuloDiff(s, from / ROTATION_TIME) * ROTATION_TIME
  }

  lemma FirstPassUnder(from: int, s: int)
    requires from % ROTATION_TIME == 0
    ensures UnderHead(FirstPass(from, s), s) && from <= FirstPass(from, s) < from + SECTORS_PER_TRACK * ROTATION_TIME
    ensures FirstPass(from, s) / ROTATION_TIME == from / ROTATION_TIME + ModuloDiff(s, from / ROTATION_TIME)
  {
    var d := ModuloDiff(s, from / ROTATION_TIME);
    var q := from / ROTATION_TIME;
    assert from == q * 500;
    assert FirstPass(from, s) == (q + d) * 500;
  }

  lemma FirstPassFirst(from: int, s: int, t: int)
    requires from % ROTATION_TIME == 0 && from <= t && UnderHead(t, s)
    ensures t >= FirstPass(from, s)
  {
    var d := ModuloDiff(s, from / ROTATION_TIME);
    var (q, p) := (from / ROTATION_TIME, t / ROTATION_TIME);
    assert from == q * 500 && t == p * 500;
    Residue(q, d, p);
  }

  lemma Residue(q: int, d: int, p: int)
    requires q <= p && 0 <= d < 32 && (q + d) % 32 == p % 32
    ensures p >= q + d
  {
    assert ((q + d) - p) % 32 == 0;
  }

  lemma PassedFrom(from: int, to: int, s: int)
    requires from % ROTATION_TIME == 0
    ensures Passed(from, to, s) <==> FirstPass(from, s) + ROTATION_TIME <= to
  {
    hide UnderHead, FirstPass;
    FirstPassUnder(from, s);
    if Passed(from, to, s) {
      var t :| from <= t && t + ROTATION_TIME <= to && UnderHead(t, s);
      FirstPassFirst(from, s, t);
    }
  }

  // ----- the unbuffered answer -----

  /** The transfer starts as soon after the seek as the target sector is under the head. */
  lemma UnbufferedStart(now: int, head: Head, s: int)
    ensures var start := now + Unbuffered(now, head, s) - ROTATION_TIME;
      && UnderHead(start, s) && start >= now + Seek(head.lastSector, s)
      && forall t :: now + Seek(head.lastSector, s) <= t && UnderHead(t, s) ==> t >= start
  {
    hide UnderHead;
    var settled := Settled(now, head.lastSector, s);
    FirstPassUnder(settled, s);
    forall t | now + Seek(head.lastSector, s) <= t && UnderHead(t, s) ensures t >= FirstPass(settled, s) {
      BoundaryNext(now + Seek(head.lastSector, s), t, s);
      FirstPassFirst(settled, s, t);
    }
  }

  lemma BoundaryNext(t: int, u: int, s: int)
    requires t <= u && UnderHead(u, s)
    ensures u >= t + Rotation(t)
  {
  }

  lemma UnbufferedBounds(now: int, head: Head, s: int)
    requires IsSector(s) && IsSector(head.lastSector)
    ensures ROTATION_TIME <= Unbuffered(now, head, s) < 31 * SEEK_TIME + 33 * ROTATION_TIME
  {
    assert 0 <= Track(s) < 32 && 0 <= Track(head.lastSector) < 32;
  }

  // ----- the track buffer -----

  /** A read is served from the track buffer exactly if the head need not move and the sector has passed it
      entirely, since the buffer began to fill, by the next sector boundary. */
  lemma HitMeans(now: int, head: Head, s: int)
    requires head.bufferInit % ROTATION_TIME == 0
    ensures Hit(now, head, s, false) <==>
      Track(s) == Track(head.lastSector) && Passed(head.bufferInit, Settled(now, head.lastSector, s), s)
  {
    PassedFrom(head.bufferInit, Settled(now, head.lastSector, s), s);
    FirstPassUnder(head.bufferInit, s);
    hide ModuloDiff, Passed, Settled;
    Slots(head.bufferInit, Settled(now, head.lastSector, s), ModuloDiff(s, head.bufferInit / ROTATION_TIME));
  }

  lemma Slots(from: int, to: int, d: int)
    requires from % ROTATION_TIME == 0 && to % ROTATION_TIME == 0
    ensures (to - from) / ROTATION_TIME > d <==> from + d * ROTATION_TIME + ROTATION_TIME <= to
  {
    var (p, q) := (from / 500, to / 500);
    assert from == p * 500 && to == q * 500;
    assert (to - from) / 500 == q - p;
  }

  /** A hit comes too early, with the sector not past the head at the request itself, exactly when the request falls
      inside the sector's first pass since the buffer began to fill; by the completion it has always passed. */
  lemma HitAtRequest(now: int, head: Head, s: int)
    requires head.bufferInit % ROTATION_TIME == 0 && Hit(now, head, s, false)
    ensures !Passed(head.bufferInit, now, s) <==>
      FirstPass(head.bufferInit, s) < now < FirstPass(head.bufferInit, s) + ROTATION_TIME
    ensures Passed(head.bufferInit, now + Latency(now, head, s, false), s)
  {
    PassedFrom(head.bufferInit, now, s);
    HitMeans(now, head, s);
    PassedFrom(head.bufferInit, Settled(now, head.lastSector, s), s);
    PassedFrom(head.bufferInit, now + ROTATION_TIME, s);
  }

  /** A hit on a sector only just begun. */
  lemma HitTooEarly()
    ensures Hit(10, Head(0, 0), 0, false) && !Passed(0, 10, 0)
  {
    PassedFrom(0, 10, 0);
  }

  /** Transfer of sector s starts at `start`: as soon after the seek as it is under the head. */
  ghost predicate StartsAt(now: int, last: int, s: int, start: int) {
    && UnderHead(start, s) && start >= now + Seek(last, s)
    && forall t :: now + Seek(last, s) <= t && UnderHead(t, s) ==> t >= start
  }

  /** Served from the buffer: a read on the track the head is on, of a sector that has passed it by the next
      boundary. */
  ghost predicate Buffered(since: int, last: int, now: int, s: int, writing: bool) {
    !writing && Track(s) == Track(last) && Passed(since, now + Rotation(now), s)
  }

  /** How long a request takes: the transfer alone from the buffer, and otherwise until the sector, first found under
      the head after the seek, has passed it. */
  lemma LatencyIs(now: int, head: Head, s: int, writing: bool)
    requires head.bufferInit % ROTATION_TIME == 0
    ensures var start := now + Latency(now, head, s, writing) - ROTATION_TIME;
      if Buffered(head.bufferInit, head.lastSector, now, s, writing) then start == now
      else StartsAt(now, head.lastSector, s, start)
  {
    HitMeans(now, head, s);
    UnbufferedStart(now, head, s);
    SeekCosts(head.lastSector, s, s);
    hide UnderHead, Passed, Seek, Rotation, Unbuffered;
  }

  /** The buffer is never slower. */
  lemma HitFaster(now: int, head: Head, s: int, writing: bool)
    ensures Latency(now, head, s, writing) <= Unbuffered(now, head, s)
  {
  }

  // ----- whole runs -----

  datatype Request = Request(now: int, sector: int, writing: bool)

  /** The head after serving the requests in turn, from the disk's initial state. */
  function Served(run: seq<Request>): Head {
    if run == [] then Head(0, 0)
    else Update(run[|run| - 1].now, Served(run[..|run| - 1]), run[|run| - 1].sector)
  }

  function Done(run: seq<Request>): int {
    if run == [] then 0
    else var r := run[|run| - 1]; r.now + Latency(r.now, Served(run[..|run| - 1]), r.sector, r.writing)
  }

  /** Requests come one at a time, each after the previous one's completion. */
  ghost predicate OneAtATime(run: seq<Request>) {
    run == [] || (OneAtATime(run[..|run| - 1]) && Done(run[..|run| - 1]) <= run[|run| - 1].now
        && IsSector(run[|run| - 1].sector))
  }

  /** After any run the buffer has been filling since a sector boundary in the past, and every request since then
      was for the track it holds. */
  lemma {:induction false} BufferHolds(run: seq<Request>)
    requires OneAtATime(run)
    ensures var head := Served(run);
      && IsSector(head.lastSector) && head.bufferInit % ROTATION_TIME == 0 && 0 <= head.bufferInit <= Done(run)
      && forall i :: 0 <= i < |run| && run[i].now >= head.bufferInit ==> Track(run[i].sector) == Track(head.lastSector)
  {
    if run == [] {
    } else {
      var (front, r) := (run[..|run| - 1], run[|run| - 1]);
      BufferHolds(front);
      hide Settled, Seek, OneAtATime, Served, Done;
      UpdateHolds(Served(front), r, front, run);
    }
  }

  /** Since when the track buffer has been filling: since the arm settled for the last request for another track than
      the one before it; since the start if there was none. */
  function FilledSince(run: seq<Request>): int {
    if run == [] then 0
    else
      var (front, r) := (run[..|run| - 1], run[|run| - 1]);
      if Track(r.sector) == Track(Before(run)) then FilledSince(front) else Settled(r.now, Before(run), r.sector)
  }

  /** Where the arm was before the last request. */
  function Before(run: seq<Request>): int
    requires run != []
  {
    if |run| == 1 then 0 else run[|run| - 2].sector
  }

  lemma {:induction false} BufferSince(run: seq<Request>)
    ensures Served(run) == Head(if run == [] then 0 else run[|run| - 1].sector, FilledSince(run))
  {
    if run == [] {
    } else {
      BufferSince(run[..|run| - 1]);
      SeekCosts(Before(run), run[|run| - 1].sector, 0);
    }
  }

  /** When each request of a run completes. */
  lemma CompletesAt(run: seq<Request>)
    requires run != [] && OneAtATime(run)
    ensures var (r, since) := (run[|run| - 1], FilledSince(run[..|run| - 1]));
      if Buffered(since, Before(run), r.now, r.sector, r.writing) then Done(run) == r.now + ROTATION_TIME
      else StartsAt(r.now, Before(run), r.sector, Done(run) - ROTATION_TIME)
  {
    var (front, r) := (run[..|run| - 1], run[|run| - 1]);
    BufferHolds(front);
    BufferSince(front);
    hide Served, FilledSince, Buffered, StartsAt, Latency;
    LatencyIs(r.now, Served(front), r.sector, r.writing);
  }

  lemma UpdateHolds(head: Head, r: Request, front: seq<Request>, run: seq<Request>)
    requires run == front + [r] && front == run[..|run| - 1] && OneAtATime(run) && head == Served(front)
    requires IsSector(head.lastSector) && head.bufferInit % ROTATION_TIME == 0 && 0 <= head.bufferInit <= Done(front)
    requires forall i :: 0 <= i < |front| && front[i].now >= head.bufferInit ==>
      Track(front[i].sector) == Track(head.lastSector)
    ensures var next := Served(run);
      && IsSector(next.lastSector) && next.bufferInit % ROTATION_TIME == 0 && 0 <= next.bufferInit <= Done(run)
      && forall i :: 0 <= i < |run| && run[i].now >= next.bufferInit ==> Track(run[i].sector) == Track(next.lastSector)
  {
    var next := Served(run);
    assert next == Update(r.now, head, r.sector);
    assert Done(run) >= r.now + Seek(head.lastSector, r.sector) + ROTATION_TIME;
    hide Settled, Seek;
    forall i | 0 <= i < |run| && run[i].now >= next.bufferInit ensures Track(run[i].sector) == Track(next.lastSector) {
      if i < |front| {
        Earlier(front, i);
      }
    }
  }

  lemma {:induction false} Earlier(run: seq<Request>, i: nat)
    requires OneAtATime(run) && i < |run|
    ensures run[i].now <= Done(run)
  {
    var front := run[..|run| - 1];
    assert Latency(run[|run| - 1].now, Served(front), run[|run| - 1].sector, run[|run| - 1].writing) >= 0;
    if i == |run| - 1 {
    } else {
      Earlier(front, i);
      assert front[i] == run[i];
    }
  }
}

/** The disk as an object: the store, the busy flag and the head's position. */
module Disks {
  import opened Bytes
  import opened DiskImage
  import opened DiskLatency

  class Disk {
    var sectors: Image
    var active: bool
    var lastSector: int
    var bufferInit: int

    ghost function Position(): Head
      reads this
    {
      Head(lastSector, bufferInit)
    }

    constructor (image: Image)
      ensures sectors == image && !active && Position() == Served([])
    {
      sectors, active, lastSector, bufferInit := image, false, 0, 0;
    }

    method TimeToSeek(now: int, newSector: int) returns (seek: int, rotation: int)
      ensures seek == Seek(lastSector, newSector) && now + seek + rotation == Settled(now, lastSector, newSector)
    {
      var newTrack := newSector / SECTORS_PER_TRACK;
      var oldTrack := lastSector / SECTORS_PER_TRACK;
      seek := (if newTrack - oldTrack < 0 then oldTrack - newTrack else newTrack - oldTrack) * SEEK_TIME;
      var over := (now + seek) % ROTATION_TIME;
      rotation := 0;
      if over > 0 {
        rotation := ROTATION_TIME - over;
      }
    }

    method ComputeLatency(now: int, newSector: int, writing: bool) returns (ticks: int)
      ensures ticks == Latency(now, Position(), newSector, writing) > 0
    {
      hide Seek, Settled, Rotation, ModuloDiff;
      var seek, rotation := TimeToSeek(now, newSector);
      var timeAfter := now + seek + rotation;
      if !writing && seek == 0
         && (timeAfter - bufferInit) / ROTATION_TIME > ModuloDiff(newSector, bufferInit / ROTATION_TIME) {
        return ROTATION_TIME;
      }
      SettledIs(now, lastSector, newSector);
      rotation := rotation + ModuloDiff(newSector, timeAfter / ROTATION_TIME) * ROTATION_TIME;
      return seek + rotation + ROTATION_TIME;
    }

    method UpdateLast(now: int, newSector: int)
      modifies this`bufferInit, this`lastSector
      ensures Position() == Update(now, old(Position()), newSector)
    {
      var seek, rotate := TimeToSeek(now, newSector);
      if seek != 0 {
        bufferInit := now + seek + rotate;
      }
      lastSector := newSector;
    }

    /** Reads at once; `ticks` is when the completion interrupt is due. */
    method ReadRequest(now: int, sectorNumber: nat, data: array<byte>) returns (ticks: int)
      requires !active && sectorNumber < DiskImage.NUM_SECTORS && data.Length >= SECTOR_SIZE
      modifies this`active, this`bufferInit, this`lastSector, data
      ensures active && data[..] == Serve(sectors, Read(sectorNumber)).1 + old(data[SECTOR_SIZE..])
      ensures ticks == Latency(now, old(Position()), sectorNumber, false) > 0
      ensures Position() == Update(now, old(Position()), sectorNumber)
    {
      ticks := ComputeLatency(now, sectorNumber, false);
      var s := sectors[sectorNumber];
      forall j | 0 <= j < SECTOR_SIZE {
        data[j] := s[j];
      }
      active := true;
      UpdateLast(now, sectorNumber);
    }

    method WriteRequest(now: int, sectorNumber: nat, data: array<byte>) returns (ticks: int)
      requires !active && sectorNumber < DiskImage.NUM_SECTORS && data.Length >= SECTOR_SIZE
      modifies this
      ensures active && sectors == Serve(old(sectors), Write(sectorNumber, data[..SECTOR_SIZE])).0
      ensures ticks == Latency(now, old(Position()), sectorNumber, true) > 0
      ensures Position() == Update(now, old(Position()), sectorNumber)
    {
      ticks := ComputeLatency(now, sectorNumber, true);
      sectors := sectors[sectorNumber := data[..SECTOR_SIZE]];
      active := true;
      UpdateLast(now, sectorNumber);
    }

    /** The completion interrupt. */
    method CallBack()
      requires active
      modifies this`active
      ensures !active
    {
      active := false;
    }

    /** One request and its completion. */
    method ServeOne(now: int, access: Access) returns (reply: Sector)
      requires !active
      modifies this
      ensures !active && (sectors, reply) == Serve(old(sectors), access)
      ensures Position() == Update(now, old(Position()), access.sector)
    {
      var data := new byte[SECTOR_SIZE](i => 0);
      if access.Read? {
        var ticks := ReadRequest(now, access.sector, data);
        assert data[..] == sectors[access.sector];
      } else {
        var bytes := access.data;
        forall j | 0 <= j < SECTOR_SIZE {
          data[j] := bytes[j];
        }
        assert data[..SECTOR_SIZE] == data[..] == bytes;
        var ticks := WriteRequest(now, access.sector, data);
      }
      reply := data[..];
      CallBack();
    }

    /** Requests one after another, the i-th at time times[i], following those of `earlier`: the head is where the whole
        run leaves it, and every reply and the contents are those of the accesses in turn. */
    method ServeInTurn(accesses: seq<Access>, times: seq<int>, ghost earlier: seq<Request>)
      returns (replies: seq<Sector>)
      requires !active && |times| == |accesses| && Position() == Served(earlier)
      modifies this
      ensures !active && Position() == Served(earlier + Requests(accesses, times))
      ensures sectors == After(old(sectors), accesses) && |replies| == |accesses|
      ensures Answers(old(sectors), accesses, replies)
    {
      replies := [];
      assert earlier + Requests([], []) == earlier;
      assert sectors == After(sectors, []);
      hide Serve, Update, Answers, Requests, Served, After;
      for i := 0 to |accesses|
        invariant !active && Position() == Served(earlier + Requests(accesses[..i], times[..i]))
        invariant sectors == After(old(sectors), accesses[..i])
        invariant |replies| == i && Answers(old(sectors), accesses, replies)
      {
        OneMore(old(sectors), accesses, times, earlier, i);
        var reply := ServeOne(times[i], accesses[i]);
        OneAnswer(old(sectors), accesses, replies, reply);
        replies := replies + [reply];
      }
      assert accesses[..|accesses|] == accesses && times[..|times|] == times;
    }
  }

  /** The contents after the accesses in turn. */
  function After(d: Image, accesses: seq<Access>): Image {
    if accesses == [] then d else Serve(After(d, accesses[..|accesses| - 1]), accesses[|accesses| - 1]).0
  }

  /** Each reply is the one the accesses before it give. */
  ghost predicate Answers(d: Image, accesses: seq<Access>, replies: seq<Sector>) {
    && |replies| <= |accesses|
    && forall i :: 0 <= i < |replies| ==> replies[i] == Serve(After(d, accesses[..i]), accesses[i]).1
  }

  lemma OneAnswer(d: Image, accesses: seq<Access>, replies: seq<Sector>, reply: Sector)
    requires Answers(d, accesses, replies) && |replies| < |accesses|
    requires reply == Serve(After(d, accesses[..|replies|]), accesses[|replies|]).1
    ensures Answers(d, accesses, replies + [reply])
  {
    hide Serve, After;
  }

  function Requests(accesses: seq<Access>, times: seq<int>): seq<Request>
    requires |times| == |accesses|
  {
    seq(|accesses|, i requires 0 <= i < |accesses| => Request(times[i], accesses[i].sector, accesses[i].Write?))
  }

  lemma OneMore(d: Image, accesses: seq<Access>, times: seq<int>, earlier: seq<Request>, i: nat)
    requires |times| == |accesses| && i < |accesses|
    ensures After(d, accesses[..i + 1]) == Serve(After(d, accesses[..i]), accesses[i]).0
    ensures Served(earlier + Requests(accesses[..i + 1], times[..i + 1]))
         == Update(times[i], Served(earlier + Requests(accesses[..i], times[..i])), accesses[i].sector)
  {
    hide Serve, Update;
    assert accesses[..i + 1][..i] == accesses[..i];
    var run := earlier + Requests(accesses[..i + 1], times[..i + 1]);
    var front := earlier + Requests(accesses[..i], times[..i]);
    assert run[..|run| - 1] == front;
  }

  lemma SettledIs(now: int, last: int, s: int)
    ensures Settled(now, last, s) == now + Seek(last, s) + Rotation(now + Seek(last, s))
  {
  }
}
