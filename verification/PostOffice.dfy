/** Messages on the wire: packet header, mail header, data, padding (machine/network.h, network/post.h). */
module Wire {
  import opened Bytes

  const MAX_WIRE_SIZE := 64
  const HEADER_SIZE := 12
  const MAX_PACKET_SIZE := 52
  const MAX_MAIL_SIZE := 40

  /** PacketHeader and MailHeader have the same layout. */
  datatype Header = Header(to: int, from: int, length: int)

  datatype Mail = Mail(pktHdr: Header, mailHdr: Header, data: seq<byte>)

  predicate IsHeader(h: Header) { IsInt32(h.to) && IsInt32(h.from) && IsInt32(h.length) }

  /** What PostOfficeOutput::Send and NetworkOutput::Send assert and fill in. */
  predicate Legal(m: Mail) {
    && IsHeader(m.pktHdr) && IsHeader(m.mailHdr) && 0 <= m.mailHdr.to
    && |m.data| == m.mailHdr.length <= MAX_MAIL_SIZE && m.pktHdr.length == m.mailHdr.length + HEADER_SIZE
  }

  function HeaderBytes(h: Header): (b: seq<byte>)
    requires IsHeader(h)
    ensures |b| == HEADER_SIZE
  {
    IntBytes(h.to) + IntBytes(h.from) + IntBytes(h.length)
  }

  function HeaderAt(b: seq<byte>): Header
    requires |b| >= HEADER_SIZE
  {
    Header(BytesInt(b[0..4]), BytesInt(b[4..8]), BytesInt(b[8..12]))
  }

  lemma HeaderBack(h: Header, rest: seq<byte>)
    requires IsHeader(h)
    ensures HeaderAt(HeaderBytes(h) + rest) == h
  {
    hide IntBytes, BytesInt;
    var b := HeaderBytes(h) + rest;
    assert b[0..4] == IntBytes(h.to) && b[4..8] == IntBytes(h.from) && b[8..12] == IntBytes(h.length);
    IntRoundTrip(h.to);
    IntRoundTrip(h.from);
    IntRoundTrip(h.length);
  }

  /** The 64 bytes sent; `junk` is whatever the unused end of the buffers held. */
  function Packet(m: Mail, junk: seq<byte>): (p: seq<byte>)
    requires Legal(m) && |junk| == MAX_MAIL_SIZE - |m.data|
    ensures |p| == MAX_WIRE_SIZE
  {
    HeaderBytes(m.pktHdr) + (HeaderBytes(m.mailHdr) + (m.data + junk))
  }

  /** A packet's payload holds a whole message. */
  predicate Whole(h: Header, payload: seq<byte>) {
    && |payload| == MAX_PACKET_SIZE && 0 <= HeaderAt(payload).length <= MAX_MAIL_SIZE
    && h.length == HeaderAt(payload).length + HEADER_SIZE && 0 <= HeaderAt(payload).to
  }

  /** What the postal worker makes of a packet header and the bytes that came with it. */
  function Parse(h: Header, payload: seq<byte>): Mail
    requires Whole(h, payload)
  {
    var mailHdr := HeaderAt(payload);
    Mail(h, mailHdr, payload[HEADER_SIZE..HEADER_SIZE + mailHdr.length])
  }

  ghost predicate IsWire(p: seq<byte>, host: int) {
    |p| == MAX_WIRE_SIZE && HeaderAt(p).to == host && Whole(HeaderAt(p), p[HEADER_SIZE..])
  }

  /** The message in a packet (anything, if it is not one of ours). */
  ghost function MailIn(p: seq<byte>, host: int): Mail {
    if IsWire(p, host) then Parse(HeaderAt(p), p[HEADER_SIZE..]) else Mail(Header(0, 0, 0), Header(0, 0, 0), [])
  }

  /** A message survives its journey over the wire unchanged. */
  lemma WireRoundTrip(m: Mail, junk: seq<byte>)
    requires Legal(m) && |junk| == MAX_MAIL_SIZE - |m.data|
    ensures IsWire(Packet(m, junk), m.pktHdr.to) && MailIn(Packet(m, junk), m.pktHdr.to) == m
  {
    hide HeaderBytes, HeaderAt;
    var tail := m.data + junk;
    var payload := HeaderBytes(m.mailHdr) + tail;
    HeaderBack(m.pktHdr, payload);
    HeaderBack(m.mailHdr, tail);
    var p := Packet(m, junk);
    assert p[HEADER_SIZE..] == payload;
    assert payload[HEADER_SIZE..HEADER_SIZE + |m.data|] == tail[..|m.data|] == m.data;
  }

  /** Read as integers, a packet is the two headers, field by field, and then the data. */
  lemma PacketLayout(m: Mail, junk: seq<byte>)
    requires Legal(m) && |junk| == MAX_MAIL_SIZE - |m.data|
    ensures var p := Packet(m, junk);
      && UnpackInts(p)[..6]
         == [m.pktHdr.to, m.pktHdr.from, m.pktHdr.length, m.mailHdr.to, m.mailHdr.from, m.mailHdr.length]
      && p[2 * HEADER_SIZE..2 * HEADER_SIZE + |m.data|] == m.data
  {
    hide IntBytes, BytesInt;
    var p := Packet(m, junk);
    var fields := [m.pktHdr.to, m.pktHdr.from, m.pktHdr.length, m.mailHdr.to, m.mailHdr.from, m.mailHdr.length];
    forall i | 0 <= i < 6 ensures UnpackInts(p)[i] == fields[i] {
      assert p[4 * i..4 * i + 4] == IntBytes(fields[i]);
      IntRoundTrip(fields[i]);
    }
  }

  /** The device copies only the bytes in use: that is enough. */
  lemma CopiedWhole(h: Header, payload: seq<byte>, before: seq<byte>, copy: seq<byte>)
    requires Whole(h, payload) && |before| == MAX_PACKET_SIZE && copy == payload[..h.length] + before[h.length..]
    ensures Whole(h, copy) && Parse(h, copy) == Parse(h, payload)
  {
    SamePrefix(payload, before, h.length, 0, 4);
    SamePrefix(payload, before, h.length, 4, 8);
    SamePrefix(payload, before, h.length, 8, 12);
    SamePrefix(payload, before, h.length, HEADER_SIZE, h.length);
    hide BytesInt;
  }

  lemma SamePrefix<T>(s: seq<T>, t: seq<T>, n: nat, a: nat, b: nat)
    requires a <= b <= n <= |s| && n <= |t|
    ensures (s[..n] + t[n..])[a..b] == s[a..b]
  {
    var u, v := (s[..n] + t[n..])[a..b], s[a..b];
    forall i | 0 <= i < b - a ensures u[i] == v[i] {
      assert u[i] == s[..n][a + i];
    }
  }
}

/** One machine's incoming mail: the socket, the one-packet input buffer, the postal worker and the mailboxes
    (machine/network.cc, network/post.cc).  Any number of senders on any machines append to the socket, and the
    network may lose a packet. */
module PostOffice {
  import opened Base
  import opened Bytes
  import opened Wire

  /** The next statement of the postal worker. */
  datatype Worker = AtWait | AtReceive | AtDeliver(hdr: Header)

  datatype Sent = Sent(mail: Mail, lost: bool)

  datatype Office = Office(
    host: int,
    socket: seq<seq<byte>>,
    inHdr: Header,            // length 0 when nothing is buffered
    inbox: seq<byte>,
    available: int,           // messageAvailable
    worker: Worker,
    buffer: seq<byte>,        // the worker's own
    boxes: seq<seq<Mail>>,
    sent: seq<Sent>,          // history: everything sent to this machine
    put: seq<Mail>,           // history: everything put into a mailbox
    got: seq<seq<Mail>>)      // history: everything obtained from each mailbox

  datatype Event =
    | Send(mail: Mail, lost: bool, junk: seq<byte>)
    | Poll                    // NetworkInput::CallBack
    | Work                    // the worker's next statement
    | Get(box: int)           // PostOfficeInput::Receive

  ghost predicate Initial(o: Office) {
    && o.socket == [] && o.inHdr.length == 0 && |o.inbox| == |o.buffer| == MAX_PACKET_SIZE
    && o.available == 0 && o.worker == AtWait && |o.boxes| == |o.got| && o.sent == [] && o.put == []
    && forall b :: 0 <= b < |o.boxes| ==> o.boxes[b] == [] && o.got[b] == []
  }

  /** The first n bytes of `from` copied over `to`. */
  function Copied(from: seq<byte>, to: seq<byte>, n: nat): (r: seq<byte>)
    requires n <= |from| && n <= |to|
    ensures |r| == |to|
  {
    from[..n] + to[n..]
  }

  function DoSend(o: Office, m: Mail, lost: bool, junk: seq<byte>): Outcome<Office> {
    if !(Legal(m) && m.pktHdr.to == o.host && |junk| == MAX_MAIL_SIZE - |m.data|) then Disabled
    else Next(o.(sent := o.sent + [Sent(m, lost)], socket := if lost then o.socket else o.socket + [Packet(m, junk)]))
  }

  function DoPoll(o: Office): Outcome<Office> {
    if o.inHdr.length != 0 || o.socket == [] then Next(o)
    else
      var p := o.socket[0];
      if |p| != MAX_WIRE_SIZE || HeaderAt(p).to != o.host || !(0 <= HeaderAt(p).length <= MAX_PACKET_SIZE)
         || |o.inbox| != MAX_PACKET_SIZE then AssertFails
      else Next(o.(socket := o.socket[1..], inHdr := HeaderAt(p), available := o.available + 1,
                   inbox := Copied(p[HEADER_SIZE..], o.inbox, HeaderAt(p).length)))
  }

  function DoReceive(o: Office): Outcome<Office> {
    if !(0 <= o.inHdr.length <= |o.inbox| && o.inHdr.length <= |o.buffer|) then AssertFails
    else Next(o.(worker := AtDeliver(o.inHdr), inHdr := o.inHdr.(length := 0),
                 buffer := Copied(o.inbox, o.buffer, o.inHdr.length)))
  }

  /** The worker's ASSERTs, then Put. */
  function DoDeliver(o: Office, h: Header): Outcome<Office> {
    if |o.buffer| != MAX_PACKET_SIZE then AssertFails
    else
      var mailHdr := HeaderAt(o.buffer);
      if !(0 <= mailHdr.to < |o.boxes|) || !(0 <= mailHdr.length <= MAX_MAIL_SIZE) then AssertFails
      else
        var m := Mail(h, mailHdr, o.buffer[HEADER_SIZE..HEADER_SIZE + mailHdr.length]);
        Next(o.(worker := AtWait, put := o.put + [m], boxes := o.boxes[mailHdr.to := o.boxes[mailHdr.to] + [m]]))
  }

  function DoGet(o: Office, box: int): Outcome<Office> {
    if !(0 <= box < |o.boxes|) || |o.got| != |o.boxes| then AssertFails
    else if o.boxes[box] == [] then Disabled
    else Next(o.(boxes := o.boxes[box := o.boxes[box][1..]], got := o.got[box := o.got[box] + [o.boxes[box][0]]]))
  }

  function Step(o: Office, e: Event): Outcome<Office> {
    match e
    case Send(m, lost, junk) => DoSend(o, m, lost, junk)
    case Poll => DoPoll(o)
    case Work =>
      (match o.worker
       case AtWait => if o.available > 0 then Next(o.(available := o.available - 1, worker := AtReceive)) else Disabled
       case AtReceive => DoReceive(o)
       case AtDeliver(h) => DoDeliver(o, h))
    case Get(box) => DoGet(o, box)
  }

  function Exec(o: Office, run: seq<Event>): Outcome<Office> {
    if run == [] then Next(o)
    else
      var before := Exec(o, run[..|run| - 1]);
      if before.Next? then Step(before.state, run[|run| - 1]) else before
  }

  // ----- invariants -----

  /** The semaphore, plus one for a worker between P and Receive, counts the 0 or 1 packets buffered. */
  ghost predicate Counted(o: Office) {
    o.available >= 0 && o.available + (if o.worker.AtReceive? then 1 else 0) == (if o.inHdr.length != 0 then 1 else 0)
  }

  ghost predicate Genuine(o: Office) {
    && (forall i :: 0 <= i < |o.socket| ==> IsWire(o.socket[i], o.host))
    && |o.inbox| == |o.buffer| == MAX_PACKET_SIZE
    && (o.inHdr.length != 0 ==> Whole(o.inHdr, o.inbox))
    && (o.worker.AtDeliver? ==> Whole(o.worker.hdr, o.buffer))
  }

  ghost function Mails(socket: seq<seq<byte>>, host: int): seq<Mail> {
    if socket == [] then [] else [MailIn(socket[0], host)] + Mails(socket[1..], host)
  }

  ghost function Buffered(o: Office): seq<Mail>
    requires Genuine(o)
  {
    if o.inHdr.length != 0 then [Parse(o.inHdr, o.inbox)] else []
  }

  ghost function InHand(o: Office): seq<Mail>
    requires Genuine(o)
  {
    if o.worker.AtDeliver? then [Parse(o.worker.hdr, o.buffer)] else []
  }

  /** What the network did not lose. */
  function Kept(sent: seq<Sent>): seq<Mail> {
    if sent == [] then []
    else
      var last := sent[|sent| - 1];
      Kept(sent[..|sent| - 1]) + if last.lost then [] else [last.mail]
  }

  /** Every message kept is in a mailbox history, in the worker's hand, in the buffer or in the socket, in order. */
  ghost predicate Conserved(o: Office)
    requires Genuine(o)
  {
    Kept(o.sent) == o.put + (InHand(o) + (Buffered(o) + Mails(o.socket, o.host)))
  }

  function ForBox(s: seq<Mail>, box: int): seq<Mail> {
    if s == [] then []
    else ForBox(s[..|s| - 1], box) + if s[|s| - 1].mailHdr.to == box then [s[|s| - 1]] else []
  }

  ghost predicate Boxed(o: Office) {
    |o.got| == |o.boxes| && forall b :: 0 <= b < |o.boxes| ==> o.got[b] + o.boxes[b] == ForBox(o.put, b)
  }

  ghost predicate Inv(o: Office) {
    Counted(o) && Genuine(o) && Conserved(o) && Boxed(o)
  }

  // ----- every step keeps them -----

  lemma {:induction false} MailsAppend(socket: seq<seq<byte>>, p: seq<byte>, host: int)
    ensures Mails(socket + [p], host) == Mails(socket, host) + [MailIn(p, host)]
  {
    hide MailIn;
    var more := socket + [p];
    if socket == [] {
      assert more[1..] == [] && more[0] == p;
    } else {
      var rest := socket[1..];
      MailsAppend(rest, p, host);
      assert more[1..] == rest + [p] && more[0] == socket[0];
    }
  }

  lemma SendKeeps(o: Office, m: Mail, lost: bool, junk: seq<byte>)
    requires Inv(o) && DoSend(o, m, lost, junk).Next?
    ensures Inv(DoSend(o, m, lost, junk).state)
  {
    hide Genuine, InHand, Buffered, Mails, Kept, MailIn, Packet, IsWire;
    KeptAppend(o.sent, Sent(m, lost));
    SendGenuine(o, m, lost, junk);
    if !lost {
      WireRoundTrip(m, junk);
      MailsAppend(o.socket, Packet(m, junk), o.host);
    }
  }

  lemma KeptAppend(sent: seq<Sent>, x: Sent)
    ensures Kept(sent + [x]) == Kept(sent) + if x.lost then [] else [x.mail]
  {
    assert (sent + [x])[..|sent|] == sent;
  }

  lemma SendGenuine(o: Office, m: Mail, lost: bool, junk: seq<byte>)
    requires Genuine(o) && DoSend(o, m, lost, junk).Next?
    ensures var n := DoSend(o, m, lost, junk).state; Genuine(n) && InHand(n) == InHand(o) && Buffered(n) == Buffered(o)
  {
    hide Whole, Parse, Packet, IsWire, Legal, MailIn;
    WireRoundTrip(m, junk);
  }

  /** A step that only moves a message along the pipeline. */
  ghost predicate Moves(o: Office, n: Office) {
    && Genuine(o) && Genuine(n) && Counted(n) && n.host == o.host
    && n.sent == o.sent && n.put == o.put && n.got == o.got && n.boxes == o.boxes
    && InHand(n) + (Buffered(n) + Mails(n.socket, n.host)) == InHand(o) + (Buffered(o) + Mails(o.socket, o.host))
  }

  lemma MovesKeeps(o: Office, n: Office)
    requires Inv(o) && Moves(o, n)
    ensures Inv(n)
  {
    hide Genuine, InHand, Buffered, Mails, Kept, ForBox;
  }

  /** A poll that finds a packet takes it from the socket into the buffer. */
  lemma PollBuffers(o: Office)
    requires Genuine(o) && o.inHdr.length == 0 && o.socket != []
    ensures DoPoll(o).Next? && Genuine(DoPoll(o).state) && DoPoll(o).state.inHdr.length != 0
    ensures InHand(DoPoll(o).state) == InHand(o)
    ensures Buffered(DoPoll(o).state) + Mails(DoPoll(o).state.socket, o.host) == Mails(o.socket, o.host)
  {
    var p := o.socket[0];
    assert IsWire(p, o.host);
    var inbox := Copied(p[HEADER_SIZE..], o.inbox, HeaderAt(p).length);
    CopiedWhole(HeaderAt(p), p[HEADER_SIZE..], o.inbox, inbox);
    hide HeaderAt, IsWire, Parse, Whole;
    assert Buffered(DoPoll(o).state) == [MailIn(p, o.host)];
  }

  lemma PollMoves(o: Office)
    requires Genuine(o) && Counted(o)
    ensures DoPoll(o).Next? && Moves(o, DoPoll(o).state)
  {
    hide Genuine, InHand, Mails, Parse;
    if o.inHdr.length == 0 && o.socket != [] {
      PollBuffers(o);
      assert Buffered(o) == [];
    }
  }

  lemma PollKeeps(o: Office)
    requires Inv(o)
    ensures DoPoll(o).Next? && Inv(DoPoll(o).state)
  {
    assert Genuine(o) && Counted(o);
    hide *;
    PollMoves(o);
    MovesKeeps(o, DoPoll(o).state);
  }

  /** Receive empties the buffer into the worker's hand. */
  lemma ReceiveEmpties(o: Office)
    requires Genuine(o) && o.worker.AtReceive? && o.inHdr.length != 0
    ensures DoReceive(o).Next? && Genuine(DoReceive(o).state)
    ensures InHand(DoReceive(o).state) == Buffered(o) && Buffered(DoReceive(o).state) == InHand(o) == []
  {
    var buffer := Copied(o.inbox, o.buffer, o.inHdr.length);
    CopiedWhole(o.inHdr, o.inbox, o.buffer, buffer);
    hide HeaderAt, IsWire, Parse, Whole;
  }

  lemma ReceiveMoves(o: Office)
    requires Genuine(o) && Counted(o) && o.worker.AtReceive?
    ensures DoReceive(o).Next? && Moves(o, DoReceive(o).state)
  {
    hide Genuine, InHand, Mails, Buffered, Copied;
    ReceiveEmpties(o);
  }

  lemma ReceiveKeeps(o: Office)
    requires Inv(o) && o.worker.AtReceive?
    ensures DoReceive(o).Next? && Inv(DoReceive(o).state)
  {
    assert Genuine(o) && Counted(o);
    hide *;
    ReceiveMoves(o);
    MovesKeeps(o, DoReceive(o).state);
  }

  ghost predicate Delivered(o: Office, n: Office, m: Mail) {
    && 0 <= m.mailHdr.to < |o.boxes|
    && n == o.(worker := AtWait, put := o.put + [m], boxes := o.boxes[m.mailHdr.to := o.boxes[m.mailHdr.to] + [m]])
  }

  /** Put takes what is in the worker's hand to its mailbox. */
  lemma DeliverMoves(o: Office, h: Header)
    requires Genuine(o) && o.worker == AtDeliver(h)
    ensures DoDeliver(o, h).AssertFails? <==> HeaderAt(o.buffer).to >= |o.boxes|
    ensures 0 <= Parse(h, o.buffer).mailHdr.to && InHand(o) == [Parse(h, o.buffer)]
    ensures DoDeliver(o, h).Next? ==> Delivered(o, DoDeliver(o, h).state, Parse(h, o.buffer))
  {
    hide IsWire;
  }

  lemma BoxedPut(o: Office, n: Office, m: Mail)
    requires Boxed(o) && 0 <= m.mailHdr.to < |o.boxes| && n.put == o.put + [m] && n.got == o.got
    requires n.boxes == o.boxes[m.mailHdr.to := o.boxes[m.mailHdr.to] + [m]]
    ensures Boxed(n)
  {
    assert n.put[..|n.put| - 1] == o.put;
    forall b | 0 <= b < |n.boxes| ensures n.got[b] + n.boxes[b] == ForBox(n.put, b) {
      assert o.got[b] + o.boxes[b] == ForBox(o.put, b);
    }
  }

  lemma DeliverKeeps(o: Office, h: Header)
    requires Inv(o) && o.worker == AtDeliver(h)
    ensures DoDeliver(o, h).AssertFails? <==> HeaderAt(o.buffer).to >= |o.boxes|
    ensures DoDeliver(o, h).Next? ==> Inv(DoDeliver(o, h).state)
  {
    hide IsWire, Parse, Whole, Mails, Kept, DoDeliver, ForBox, Boxed, HeaderAt;
    DeliverMoves(o, h);
    if DoDeliver(o, h).Next? {
      var n := DoDeliver(o, h).state;
      BoxedPut(o, n, Parse(h, o.buffer));
      assert n.put + (InHand(n) + (Buffered(n) + Mails(n.socket, n.host)))
          == o.put + (InHand(o) + (Buffered(o) + Mails(o.socket, o.host)));
    }
  }

  lemma GetKeeps(o: Office, box: int)
    requires Inv(o)
    ensures DoGet(o, box).AssertFails? <==> !(0 <= box < |o.boxes|)
    ensures DoGet(o, box).Next? ==> Inv(DoGet(o, box).state)
  {
    hide HeaderAt, IsWire, Parse, Whole, Mails, Kept, ForBox;
    if DoGet(o, box).Next? {
      var n := DoGet(o, box).state;
      forall b | 0 <= b < |n.boxes| ensures n.got[b] + n.boxes[b] == ForBox(n.put, b) {
        assert o.got[b] + o.boxes[b] == ForBox(o.put, b);
      }
    }
  }

  /** The receiving side fails an ASSERT exactly for a message to a mailbox it does not have, or a Receive from one. */
  ghost predicate WrongBox(o: Office, e: Event) {
    || (e == Work && o.worker.AtDeliver? && |o.buffer| == MAX_PACKET_SIZE && HeaderAt(o.buffer).to >= |o.boxes|)
    || (e.Get? && !(0 <= e.box < |o.boxes|))
  }

  lemma StepKeeps(o: Office, e: Event)
    requires Inv(o)
    ensures Step(o, e).AssertFails? <==> WrongBox(o, e)
    ensures Step(o, e).Next? ==> Inv(Step(o, e).state)
  {
    hide DoSend, DoReceive, DoPoll, DoDeliver, DoGet, Mails, Kept, ForBox, HeaderAt, IsWire, Parse, Whole;
    match e
    case Send(m, lost, junk) =>
      NeverFails(o, m, lost, junk);
      if DoSend(o, m, lost, junk).Next? {
        SendKeeps(o, m, lost, junk);
      }
    case Poll => PollKeeps(o);
    case Work =>
      if o.worker.AtReceive? {
        ReceiveKeeps(o);
      } else if o.worker.AtDeliver? {
        DeliverKeeps(o, o.worker.hdr);
      }
    case Get(box) => GetKeeps(o, box);
  }

  lemma NeverFails(o: Office, m: Mail, lost: bool, junk: seq<byte>)
    ensures !DoSend(o, m, lost, junk).AssertFails?
  {
  }

  lemma InitialInv(o: Office)
    requires Initial(o)
    ensures Inv(o)
  {
    assert Genuine(o);
  }

  lemma {:induction false} RunKeeps(o: Office, run: seq<Event>)
    requires Initial(o)
    ensures Exec(o, run).Next? ==> Inv(Exec(o, run).state)
  {
    hide Inv, Initial, Step;
    if run == [] {
      InitialInv(o);
    } else {
      RunKeeps(o, run[..|run| - 1]);
      var before := Exec(o, run[..|run| - 1]);
      if before.Next? {
        StepKeeps(before.state, run[|run| - 1]);
      }
    }
  }

  // ----- theorems -----

  lemma OnePacketBuffered(start: Office, run: seq<Event>, o: Office)
    requires Initial(start) && Exec(start, run) == Next(o)
    ensures o.available + (if o.worker.AtReceive? then 1 else 0) == (if o.inHdr.length != 0 then 1 else 0)
  {
    RunKeeps(start, run);
  }

  /** In every run the ASSERTs of the device, the worker and Receive fail only over a mailbox number. */
  lemma FailsOnlyOnWrongBox(start: Office, run: seq<Event>, o: Office, e: Event)
    requires Initial(start) && Exec(start, run) == Next(o)
    ensures Step(o, e).AssertFails? <==> WrongBox(o, e)
  {
    RunKeeps(start, run);
    StepKeeps(o, e);
  }

  // ----- the callers' side of that -----

  /** The call is for a mailbox this machine has; a lost message does not matter. */
  predicate InRange(e: Event, boxes: nat) {
    && (e.Send? && !e.lost ==> e.mail.mailHdr.to < boxes)
    && (e.Get? ==> 0 <= e.box < boxes)
  }

  ghost predicate AllInRange(run: seq<Event>, boxes: nat) { forall i :: 0 <= i < |run| ==> InRange(run[i], boxes) }

  ghost predicate Addressed(sent: seq<Sent>, boxes: nat) {
    forall i :: 0 <= i < |Kept(sent)| ==> Kept(sent)[i].mailHdr.to < boxes
  }

  lemma HandAddressed(o: Office)
    requires Inv(o) && Addressed(o.sent, |o.boxes|) && o.worker.AtDeliver?
    ensures HeaderAt(o.buffer).to < |o.boxes|
  {
    hide Kept, Mails, Buffered, ForBox, Counted, Boxed;
    var m := Parse(o.worker.hdr, o.buffer);
    assert InHand(o) == [m];
    assert Kept(o.sent)[|o.put|] == m;
  }

  lemma StepFrame(o: Office, e: Event)
    requires Step(o, e).Next?
    ensures var n := Step(o, e).state;
      |n.boxes| == |o.boxes| && n.sent == (if e.Send? then o.sent + [Sent(e.mail, e.lost)] else o.sent)
  {
    hide HeaderAt, Copied, Legal, Packet;
  }

  lemma SendAddressed(sent: seq<Sent>, x: Sent, boxes: nat)
    requires Addressed(sent, boxes) && (!x.lost ==> x.mail.mailHdr.to < boxes)
    ensures Addressed(sent + [x], boxes)
  {
    hide Kept;
    KeptAppend(sent, x);
  }

  lemma StepAddressed(o: Office, e: Event)
    requires Inv(o) && Addressed(o.sent, |o.boxes|) && InRange(e, |o.boxes|)
    ensures !Step(o, e).AssertFails?
    ensures Step(o, e).Next? ==> |Step(o, e).state.boxes| == |o.boxes| && Addressed(Step(o, e).state.sent, |o.boxes|)
  {
    hide Inv, Step, Addressed, HeaderAt;
    StepKeeps(o, e);
    if e.Work? && o.worker.AtDeliver? {
      HandAddressed(o);
    }
    if Step(o, e).Next? {
      StepFrame(o, e);
      if e.Send? {
        SendAddressed(o.sent, Sent(e.mail, e.lost), |o.boxes|);
      }
    }
  }

  /** If every message that is not lost is for a mailbox of the machine, and so is every Receive,
      no run fails an ASSERT. */
  lemma {:induction false} NoRunFails(start: Office, run: seq<Event>)
    requires Initial(start) && AllInRange(run, |start.boxes|)
    ensures !Exec(start, run).AssertFails?
    ensures Exec(start, run).Next? ==>
      |Exec(start, run).state.boxes| == |start.boxes| && Addressed(Exec(start, run).state.sent, |start.boxes|)
  {
    RunKeeps(start, run);
    if run == [] {
    } else {
      var front := run[..|run| - 1];
      NoRunFails(start, front);
      RunKeeps(start, front);
      hide Inv, Initial, Step, Addressed, InRange;
      var before := Exec(start, front);
      if before.Next? {
        StepAddressed(before.state, run[|run| - 1]);
      }
    }
  }

  lemma ExecOne(o: Office, run: seq<Event>, e: Event)
    requires Exec(o, run).Next?
    ensures Exec(o, run + [e]) == Step(Exec(o, run).state, e)
  {
    hide Step;
    assert (run + [e])[..|run|] == run;
  }

  /** The state in which the worker holds the one message sent so far. */
  lemma OneInHand(o: Office, m: Mail)
    requires Inv(o) && o.sent == [Sent(m, false)] && o.worker.AtDeliver? && o.put == []
    ensures HeaderAt(o.buffer) == m.mailHdr
  {
    hide Mails, Buffered, ForBox, Counted, Boxed;
    KeptAppend([], Sent(m, false));
    assert [] + [Sent(m, false)] == o.sent;
    assert Kept(o.sent) == [m];
    assert Kept(o.sent)[0] == InHand(o)[0];
  }

  /** One message has been sent and nothing has been put; the worker is where it says. */
  ghost predicate Carries(o: Office, start: Office, m: Mail, worker: Worker) {
    Inv(o) && o.sent == [Sent(m, false)] && o.put == [] && o.boxes == start.boxes && o.worker == worker
  }

  lemma CarriesSend(o: Office, m: Mail, junk: seq<byte>)
    requires Initial(o) && Legal(m) && m.pktHdr.to == o.host && |junk| == MAX_MAIL_SIZE - |m.data|
    ensures var r := Step(o, Send(m, false, junk));
      r.Next? && Carries(r.state, o, m, AtWait) && r.state.inHdr.length == 0 && r.state.socket != []
          && r.state.available == 0
  {
    InitialInv(o);
    hide Inv, Legal, Packet;
    SendKeeps(o, m, false, junk);
  }

  lemma CarriesPoll(o: Office, start: Office, m: Mail)
    requires Carries(o, start, m, AtWait) && o.inHdr.length == 0 && o.socket != [] && o.available == 0
    ensures var r := Step(o, Poll); r.Next? && Carries(r.state, start, m, AtWait) && r.state.available == 1
  {
    hide Inv, Copied, HeaderAt;
    PollKeeps(o);
  }

  lemma CarriesWait(o: Office, start: Office, m: Mail)
    requires Carries(o, start, m, AtWait) && o.available == 1
    ensures var r := Step(o, Work); r.Next? && Carries(r.state, start, m, AtReceive)
  {
    hide Inv;
    StepKeeps(o, Work);
  }

  lemma CarriesReceive(o: Office, start: Office, m: Mail)
    requires Carries(o, start, m, AtReceive)
    ensures var r := Step(o, Work); r.Next? && r.state.worker.AtDeliver? && Carries(r.state, start, m, r.state.worker)
  {
    hide Inv, Copied;
    ReceiveKeeps(o);
  }

  lemma ReachesHand(o: Office, m: Mail, junk: seq<byte>)
    requires Initial(o) && Legal(m) && m.pktHdr.to == o.host && |junk| == MAX_MAIL_SIZE - |m.data|
    ensures var r := Exec(o, [Send(m, false, junk), Poll, Work, Work]);
      r.Next? && r.state.worker.AtDeliver? && Carries(r.state, o, m, r.state.worker)
  {
    var send := Send(m, false, junk);
    assert Exec(o, []) == Next(o) && [] + [send] == [send] && [send] + [Poll] == [send, Poll];
    assert [send, Poll] + [Work] == [send, Poll, Work] && [send, Poll, Work] + [Work] == [send, Poll, Work, Work];
    hide *;
    ExecOne(o, [], send);
    CarriesSend(o, m, junk);
    ExecOne(o, [send], Poll);
    CarriesPoll(Exec(o, [send]).state, o, m);
    ExecOne(o, [send, Poll], Work);
    CarriesWait(Exec(o, [send, Poll]).state, o, m);
    ExecOne(o, [send, Poll, Work], Work);
    CarriesReceive(Exec(o, [send, Poll, Work]).state, o, m);
  }

  /** A message to a mailbox the machine does not have, sent to any machine, stops it. */
  lemma MissingBoxFails(o: Office, m: Mail, junk: seq<byte>)
    requires Initial(o) && Legal(m) && m.pktHdr.to == o.host && |junk| == MAX_MAIL_SIZE - |m.data|
    requires m.mailHdr.to >= |o.boxes|
    ensures Exec(o, [Send(m, false, junk), Poll, Work, Work, Work]).AssertFails?
  {
    hide Inv, Initial, Legal, HeaderAt, Step, Exec;
    var run := [Send(m, false, junk), Poll, Work, Work];
    ReachesHand(o, m, junk);
    var held := Exec(o, run).state;
    OneInHand(held, m);
    ExecOne(o, run, Work);
    assert run + [Work] == [Send(m, false, junk), Poll, Work, Work, Work];
    StepKeeps(held, Work);
    BufferWhole(held);
  }

  /** So for every machine there is a run that fails. */
  lemma SomeRunFails(o: Office) returns (run: seq<Event>)
    requires Initial(o) && IsInt32(o.host) && IsInt32(|o.boxes|)
    ensures Exec(o, run).AssertFails?
  {
    var m := Mail(Header(o.host, 0, HEADER_SIZE), Header(|o.boxes|, 0, 0), []);
    var junk: seq<byte> := seq(MAX_MAIL_SIZE, _ => 0);
    run := [Send(m, false, junk), Poll, Work, Work, Work];
    MissingBoxFails(o, m, junk);
  }

  lemma BufferWhole(o: Office)
    requires Inv(o)
    ensures |o.buffer| == MAX_PACKET_SIZE
  {
  }

  function FromHost(s: seq<Mail>, host: int): seq<Mail> {
    if s == [] then []
    else FromHost(s[..|s| - 1], host) + if s[|s| - 1].pktHdr.from == host then [s[|s| - 1]] else []
  }

  lemma {:induction false} FromHostAppend(s: seq<Mail>, t: seq<Mail>, host: int)
    ensures FromHost(s + t, host) == FromHost(s, host) + FromHost(t, host)
  {
    if t == [] {
      assert s + t == s;
    } else {
      FromHostAppend(s, t[..|t| - 1], host);
      var u := s + t;
      assert u[..|u| - 1] == s + t[..|t| - 1] && u[|u| - 1] == t[|t| - 1];
    }
  }

  lemma {:induction false} ForBoxAppend(s: seq<Mail>, t: seq<Mail>, box: int)
    ensures ForBox(s + t, box) == ForBox(s, box) + ForBox(t, box)
  {
    if t == [] {
      assert s + t == s;
    } else {
      ForBoxAppend(s, t[..|t| - 1], box);
      var u := s + t;
      assert u[..|u| - 1] == s + t[..|t| - 1] && u[|u| - 1] == t[|t| - 1];
    }
  }

  // ----- from Send to Receive -----

  /** The messages a run sends, in order. */
  function SentIn(run: seq<Event>): seq<Sent> {
    if run == [] then []
    else
      var e := run[|run| - 1];
      SentIn(run[..|run| - 1]) + if e.Send? then [Sent(e.mail, e.lost)] else []
  }

  /** The message a Receive from the mailbox returns: the one at its front. */
  function ObtainedBy(o: Office, e: Event, box: nat): seq<Mail> {
    if e == Get(box) && box < |o.boxes| && o.boxes[box] != [] then [o.boxes[box][0]] else []
  }

  /** The messages a run's Receives from the mailbox return, in order. */
  function Obtained(start: Office, run: seq<Event>, box: nat): seq<Mail> {
    if run == [] then []
    else
      var before := Exec(start, run[..|run| - 1]);
      Obtained(start, run[..|run| - 1], box)
        + if before.Next? then ObtainedBy(before.state, run[|run| - 1], box) else []
  }

  lemma StepHistory(o: Office, e: Event, box: nat)
    requires Step(o, e).Next? && box < |o.boxes| == |o.got|
    ensures var n := Step(o, e).state;
      && box < |n.boxes| == |o.boxes| && |n.got| == |o.got| && n.got[box] == o.got[box] + ObtainedBy(o, e, box)
      && n.sent == o.sent + if e.Send? then [Sent(e.mail, e.lost)] else []
  {
    hide HeaderAt, Copied, Legal, Packet;
  }

  /** The histories are the messages sent and obtained. */
  lemma {:induction false} HistoriesAre(start: Office, run: seq<Event>, o: Office, box: nat)
    requires Initial(start) && Exec(start, run) == Next(o) && box < |start.boxes|
    ensures |o.boxes| == |o.got| == |start.boxes|
    ensures o.sent == SentIn(run) && o.got[box] == Obtained(start, run, box)
  {
    if run == [] {
    } else {
      hide Initial, Step, ObtainedBy;
      var front := run[..|run| - 1];
      var before := Exec(start, front).state;
      HistoriesAre(start, front, before, box);
      StepHistory(before, run[|run| - 1], box);
    }
  }

  /** Nothing is on its way to a mailbox. */
  predicate Quiet(o: Office) { o.socket == [] && o.inHdr.length == 0 && o.worker.AtWait? }

  /** In every run, what the Receives from a mailbox have returned, followed by what waits in it, is the beginning of
      what was sent to it and not lost: in order, uncorrupted, nothing twice.  It is all of it when nothing is on its
      way. */
  lemma InOrder(start: Office, run: seq<Event>, o: Office, box: nat)
    requires Initial(start) && Exec(start, run) == Next(o) && box < |start.boxes|
    ensures |o.boxes| == |start.boxes|
    ensures Obtained(start, run, box) + o.boxes[box] <= ForBox(Kept(SentIn(run)), box)
    ensures Quiet(o) ==> Obtained(start, run, box) + o.boxes[box] == ForBox(Kept(SentIn(run)), box)
  {
    HistoriesAre(start, run, o, box);
    RunKeeps(start, run);
    hide *;
    OrderKept(o, box);
  }

  lemma OrderKept(o: Office, box: nat)
    requires Inv(o) && box < |o.boxes|
    ensures |o.got| == |o.boxes| && o.got[box] + o.boxes[box] <= ForBox(Kept(o.sent), box)
    ensures Quiet(o) ==> o.got[box] + o.boxes[box] == ForBox(Kept(o.sent), box)
  {
    hide ForBox, Kept, Mails, HeaderAt, IsWire, Parse, Whole;
    var rest := InHand(o) + (Buffered(o) + Mails(o.socket, o.host));
    ForBoxAppend(o.put, rest, box);
    if Quiet(o) {
      QuietRest(o);
      assert o.put + rest == o.put;
    }
  }

  lemma QuietRest(o: Office)
    requires Genuine(o) && Quiet(o)
    ensures InHand(o) + (Buffered(o) + Mails(o.socket, o.host)) == []
  {
    hide Parse, Whole, IsWire;
  }

  lemma PrefixFrom(s: seq<Mail>, all: seq<Mail>, host: int)
    requires s <= all
    ensures FromHost(s, host) <= FromHost(all, host)
  {
    assert s + all[|s|..] == all;
    hide FromHost;
    FromHostAppend(s, all[|s|..], host);
  }

  /** The same for each sender by itself. */
  lemma InOrderPerSender(start: Office, run: seq<Event>, o: Office, box: nat, sender: int)
    requires Initial(start) && Exec(start, run) == Next(o) && box < |start.boxes|
    ensures FromHost(Obtained(start, run, box), sender) <= FromHost(ForBox(Kept(SentIn(run)), box), sender)
  {
    InOrder(start, run, o, box);
    hide *;
    PrefixFrom(Obtained(start, run, box), ForBox(Kept(SentIn(run)), box), sender);
  }

  // ----- and it does arrive -----

  /** How many events of the device and the worker are still needed. */
  function Remaining(o: Office): nat {
    4 * |o.socket| + (if o.worker.AtDeliver? then 1 else 0)
      + if o.inHdr.length == 0 then 0 else if o.worker.AtReceive? then 2 else 3
  }

  /** The next of them. */
  function NextEvent(o: Office): Event { if o.worker.AtWait? && o.available == 0 then Poll else Work }

  lemma PollNearer(o: Office)
    requires o.worker.AtWait? && o.inHdr.length == 0 && o.socket != [] && DoPoll(o).Next?
    ensures Remaining(DoPoll(o).state) < Remaining(o)
  {
    hide HeaderAt, Copied;
  }

  lemma WaitNearer(o: Office)
    requires o.worker.AtWait? && o.available > 0 && o.inHdr.length != 0
    ensures Step(o, Work).Next? && Remaining(Step(o, Work).state) < Remaining(o)
  {
  }

  lemma ReceiveNearer(o: Office)
    requires o.worker.AtReceive? && o.inHdr.length != 0 && DoReceive(o).Next?
    ensures Remaining(DoReceive(o).state) < Remaining(o)
  {
    hide Copied;
  }

  lemma DeliverNearer(o: Office)
    requires o.worker.AtDeliver? && DoDeliver(o, o.worker.hdr).Next?
    ensures Remaining(DoDeliver(o, o.worker.hdr).state) < Remaining(o)
  {
    hide HeaderAt;
  }

  lemma OneNearer(o: Office)
    requires Inv(o) && Addressed(o.sent, |o.boxes|) && !Quiet(o)
    ensures var r := Step(o, NextEvent(o)); r.Next? && Remaining(r.state) < Remaining(o)
  {
    var e := NextEvent(o);
    assert InRange(e, |o.boxes|) && Counted(o);
    hide Inv, Addressed, Remaining, DoPoll, DoReceive, DoDeliver;
    StepAddressed(o, e);
    if e.Poll? {
      PollDecides(o);
      PollNearer(o);
    } else if o.worker.AtWait? {
      WaitNearer(o);
    } else if o.worker.AtReceive? {
      ReceiveDecides(o);
      ReceiveNearer(o);
    } else {
      DeliverDecides(o, o.worker.hdr);
      DeliverNearer(o);
    }
  }

  lemma PollDecides(o: Office)
    ensures DoPoll(o).Next? || DoPoll(o).AssertFails?
  {
    hide HeaderAt, Copied;
  }

  lemma ReceiveDecides(o: Office)
    ensures DoReceive(o).Next? || DoReceive(o).AssertFails?
  {
    hide Copied;
  }

  lemma DeliverDecides(o: Office, h: Header)
    ensures DoDeliver(o, h).Next? || DoDeliver(o, h).AssertFails?
  {
    hide HeaderAt;
  }

  lemma OneMoreInRange(run: seq<Event>, o: Office, boxes: nat)
    requires AllInRange(run, boxes)
    ensures AllInRange(run + [NextEvent(o)], boxes)
  {
    assert InRange(NextEvent(o), boxes);
    hide InRange, NextEvent;
  }

  /** The device and the worker by themselves. */
  ghost predicate Carrying(more: seq<Event>) { forall i :: 0 <= i < |more| ==> more[i] == Poll || more[i] == Work }

  lemma CarryingNone()
    ensures Carrying([])
  {
  }

  lemma CarryingOn(o: Office, rest: seq<Event>)
    requires Carrying(rest)
    ensures Carrying([NextEvent(o)] + rest)
  {
  }

  /** Wherever a run stands, the polls of the device and the worker's statements take every message sent and not lost to
      its mailbox. */
  lemma {:induction false} EverythingArrives(start: Office, run: seq<Event>, o: Office) returns (more: seq<Event>)
    requires Initial(start) && Exec(start, run) == Next(o) && AllInRange(run, |start.boxes|)
    ensures Carrying(more) && |more| <= Remaining(o)
    ensures Exec(start, run + more).Next? && Quiet(Exec(start, run + more).state)
    decreases Remaining(o)
  {
    hide *;
    if Quiet(o) {
      more := [];
      CarryingNone();
      assert run + more == run;
    } else {
      RunKeeps(start, run);
      NoRunFails(start, run);
      var e := NextEvent(o);
      OneNearer(o);
      ExecOne(start, run, e);
      OneMoreInRange(run, o, |start.boxes|);
      var rest := EverythingArrives(start, run + [e], Step(o, e).state);
      more := [e] + rest;
      CarryingOn(o, rest);
      assert run + more == run + [e] + rest;
    }
  }

  /** A poll or a statement of the worker sends and obtains nothing. */
  lemma {:induction false} OnlyCarries(start: Office, run: seq<Event>, more: seq<Event>, box: nat)
    requires Carrying(more)
    ensures SentIn(run + more) == SentIn(run) && Obtained(start, run + more, box) == Obtained(start, run, box)
  {
    if more == [] {
      assert run + more == run;
    } else {
      var front := more[..|more| - 1];
      OnlyCarries(start, run, front, box);
      assert (run + more)[..|run + more| - 1] == run + front && (run + more)[|run + more| - 1] == more[|more| - 1];
      hide Exec, Step;
    }
  }

  /** So then every message sent to a mailbox and not lost has been obtained from it or waits in it. */
  lemma NothingMissing(start: Office, run: seq<Event>, o: Office, box: nat) returns (more: seq<Event>, n: Office)
    requires Initial(start) && Exec(start, run) == Next(o) && box < |start.boxes|
    requires AllInRange(run, |start.boxes|)
    ensures Carrying(more) && Exec(start, run + more) == Next(n) && |n.boxes| == |start.boxes|
    ensures Obtained(start, run, box) + n.boxes[box] == ForBox(Kept(SentIn(run)), box)
  {
    hide *;
    more := EverythingArrives(start, run, o);
    n := Exec(start, run + more).state;
    OnlyCarries(start, run, more, box);
    InOrder(start, run + more, n, box);
  }
}

/** The receiving side as an object: every method is the step of the same name. */
module PostOffices {
  import opened Base
  import opened Bytes
  import opened Wire
  import opened PostOffice

  class PostOfficeInput {
    const host: int
    const inbox: array<byte>
    const buffer: array<byte>
    var socket: seq<seq<byte>>
    var inHdr: Header
    var available: int
    var boxes: seq<seq<Mail>>
    ghost var worker: Worker
    ghost var sent: seq<Sent>
    ghost var put: seq<Mail>
    ghost var got: seq<seq<Mail>>

    ghost predicate Valid() {
      inbox != buffer && inbox.Length == buffer.Length == MAX_PACKET_SIZE
    }

    ghost function Snapshot(): Office
      reads this, inbox, buffer
    {
      Office(host, socket, inHdr, inbox[..], available, worker, buffer[..], boxes, sent, put, got)
    }

    constructor (hostName: int, nBoxes: nat)
      ensures Valid() && Initial(Snapshot()) && host == hostName && |boxes| == nBoxes && fresh(inbox) && fresh(buffer)
    {
      host := hostName;
      inbox := new byte[MAX_PACKET_SIZE];
      buffer := new byte[MAX_PACKET_SIZE];
      socket, inHdr, available := [], Header(0, 0, 0), 0;
      boxes := seq(nBoxes, i => []);
      worker, sent, put, got := AtWait, [], [], seq(nBoxes, i => []);
    }

    /** bcopy: the first n bytes. */
    method CopyBytes(from: seq<byte>, to: array<byte>, n: nat)
      requires n <= |from| && n <= to.Length
      modifies to
      ensures to[..] == Copied(from, old(to[..]), n)
    {
      for i := 0 to n
        invariant to[..i] == from[..i] && to[i..] == old(to[i..])
      {
        to[i] := from[i];
        assert to[..i + 1] == from[..i + 1];
        assert to[i + 1..] == old(to[i..])[1..];
      }
      assert to[..] == to[..n] + to[n..];
    }

    /** NetworkInput::CallBack, which ends by raising messageAvailable. */
    method CallBack()
      requires Valid() && DoPoll(Snapshot()).Next?
      modifies this, inbox
      ensures Valid() && DoPoll(old(Snapshot())) == Next(Snapshot())
    {
      hide HeaderAt, Copied;
      if inHdr.length != 0 {
        return;
      }
      if socket == [] {
        return;
      }
      var packet := socket[0];
      socket := socket[1..];
      inHdr := HeaderAt(packet);
      CopyBytes(packet[HEADER_SIZE..], inbox, inHdr.length);
      available := available + 1;
    }

    /** NetworkInput::Receive, into the worker's buffer. */
    method Receive() returns (hdr: Header)
      requires Valid() && worker.AtReceive? && DoReceive(Snapshot()).Next?
      modifies this`inHdr, this`worker, buffer
      ensures DoReceive(old(Snapshot())) == Next(Snapshot()) && worker == AtDeliver(hdr)
    {
      hide Copied;
      hdr := inHdr;
      inHdr := inHdr.(length := 0);
      if hdr.length != 0 {
        CopyBytes(inbox[..], buffer, hdr.length);
      } else {
        assert Copied(inbox[..], buffer[..], 0) == buffer[..] by { CopiedNone(inbox[..], buffer[..]); }
      }
      worker := AtDeliver(hdr);
    }

    /** The rest of the worker's loop body: parse the mail header and put the message into its mailbox. */
    method Deliver(hdr: Header)
      requires Valid() && worker == AtDeliver(hdr) && DoDeliver(Snapshot(), hdr).Next?
      modifies this`worker, this`put, this`boxes
      ensures DoDeliver(old(Snapshot()), hdr) == Next(Snapshot())
    {
      var mailHdr := HeaderAt(buffer[..]);
      var mail := Mail(hdr, mailHdr, buffer[..][HEADER_SIZE..HEADER_SIZE + mailHdr.length]);
      boxes := boxes[mailHdr.to := boxes[mailHdr.to] + [mail]];
      put := put + [mail];
      worker := AtWait;
    }

    /** One turn of PostalDelivery, once its P returns. */
    method PostalDelivery()
      requires Valid() && Inv(Snapshot()) && worker == AtWait && available > 0
      requires HeaderAt(inbox[..]).to < |boxes|
      modifies this, buffer
      ensures Valid() && Inv(Snapshot()) && worker == AtWait && inHdr.length == 0
      ensures put == old(put) + old(Buffered(Snapshot())) && socket == old(socket) && sent == old(sent)
          && got == old(got)
    {
      hide Inv, DoReceive, DoDeliver, HeaderAt, Buffered;
      ghost var o := Snapshot();
      WorkTurn(o);
      available := available - 1;
      worker := AtReceive;
      assert Snapshot() == Woken(o);
      var hdr := Receive();
      Deliver(hdr);
    }

    method Get(box: int) returns (mail: Mail)
      requires Valid() && DoGet(Snapshot(), box).Next?
      modifies this`boxes, this`got
      ensures DoGet(old(Snapshot()), box) == Next(Snapshot()) && old(boxes)[box] == [mail] + boxes[box]
      ensures |boxes| == old(|boxes|) && forall b :: 0 <= b < |boxes| && b != box ==> boxes[b] == old(boxes)[b]
    {
      mail := boxes[box][0];
      boxes := boxes[box := boxes[box][1..]];
      got := got[box := got[box] + [mail]];
    }
  }

  lemma CopiedNone(from: seq<byte>, to: seq<byte>)
    ensures Copied(from, to, 0) == to
  {
  }

  /** P on messageAvailable. */
  ghost function Woken(o: Office): Office { o.(available := o.available - 1, worker := AtReceive) }

  lemma WokenKeeps(o: Office)
    requires Inv(o) && o.worker == AtWait && o.available > 0
    ensures Inv(Woken(o)) && Genuine(o) && o.inHdr.length != 0 && Genuine(Woken(o)) && Buffered(Woken(o)) == Buffered(o)
  {
    hide DoReceive, DoDeliver, DoPoll, DoGet, DoSend;
    StepKeeps(o, Work);
  }

  /** The worker's three statements, from one buffered packet to one message in its mailbox. */
  lemma WorkTurn(o: Office)
    requires Inv(o) && o.worker == AtWait && o.available > 0 && HeaderAt(o.inbox).to < |o.boxes|
    ensures DoReceive(Woken(o)).Next?
    ensures var held := DoReceive(Woken(o)).state; held.worker == AtDeliver(o.inHdr) && DoDeliver(held, o.inHdr).Next?
    ensures var n := DoDeliver(DoReceive(Woken(o)).state, o.inHdr).state;
      && Inv(n) && n.worker == AtWait && n.inHdr.length == 0 && n.put == o.put + Buffered(o)
      && n.socket == o.socket && n.sent == o.sent && n.got == o.got
  {
    hide Inv, HeaderAt, DoDeliver, Genuine, Parse, Copied, Buffered, InHand;
    WokenKeeps(o);
    var a := Woken(o);
    ReceiveKeeps(a);
    ReceiveEmpties(a);
    var held := DoReceive(a).state;
    SameTo(o, held, o.inHdr);
    DeliverKeeps(held, o.inHdr);
    DeliverMoves(held, o.inHdr);
    DeliverDecides(held, o.inHdr);
  }

  /** The message in hand is the one that was buffered, so it goes to the same mailbox. */
  lemma SameTo(o: Office, held: Office, hdr: Header)
    requires Genuine(o) && Genuine(held) && o.inHdr.length != 0 && held.worker == AtDeliver(hdr)
    requires InHand(held) == Buffered(o)
    ensures HeaderAt(held.buffer) == HeaderAt(o.inbox)
  {
    assert Parse(hdr, held.buffer) == Parse(o.inHdr, o.inbox) by {
      assert InHand(held)[0] == Buffered(o)[0];
    }
  }
}

/** PostOfficeOutput::Send: one request at a time on the network device (network/post.cc, machine/network.cc). */
module Posting {
  import opened Base
  import opened Bytes
  import opened Wire
  import opened Device
  import PostOffice

  /** A message for some machine; what pads its packet and whether the network loses it are not the sender's choice. */
  datatype Out = Out(mail: Mail, junk: seq<byte>, lost: bool)

  /** What Send asserts and fills in. */
  predicate Posted(c: Out) { Legal(c.mail) && |c.junk| == MAX_MAIL_SIZE - |c.mail.data| }

  type Post = c: Out | Posted(c)
    witness Out(Mail(Header(0, 0, HEADER_SIZE), Header(0, 0, 0), []), seq(MAX_MAIL_SIZE, _ => 0), true)

  type Net = map<int, seq<seq<byte>>>

  function SocketOf(net: Net, to: int): seq<seq<byte>> {
    if to in net then net[to] else []
  }

  function Transmit(net: Net, c: Post): (Net, bool) {
    var to := c.mail.pktHdr.to;
    (if c.lost then net else net[to := SocketOf(net, to) + [Packet(c.mail, c.junk)]], true)
  }

  /** The packets for one machine that were not lost, in the order they were handed to the device. */
  function Delivered(log: seq<Entry<Post, bool>>, to: int): seq<seq<byte>> {
    if log == [] then []
    else
      var c := log[|log| - 1].cmd;
      Delivered(log[..|log| - 1], to) + if c.mail.pktHdr.to == to && !c.lost then [Packet(c.mail, c.junk)] else []
  }

  lemma {:induction false} SocketIsLog(log: seq<Entry<Post, bool>>, to: int)
    ensures SocketOf(Replay(Transmit, map[], log), to) == Delivered(log, to)
  {
    if log == [] {
    } else {
      SocketIsLog(log[..|log| - 1], to);
    }
  }

  /** However the sending threads interleave, each socket receives exactly the packets sent to it and not lost, in the
      order of their turns under sendLock. */
  lemma SendsInTurn(start: Dev<Net, Post, bool>, run: seq<Event<Post>>, d: Dev<Net, Post, bool>, to: int)
    requires Initial(start) && start.state == map[] && Exec(Transmit, start, run) == Next(d)
    ensures SocketOf(d.state, to) == Delivered(d.log, to)
  {
    OneAfterAnother(Transmit, start, run, d);
    SocketIsLog(d.log, to);
  }

  // ----- and at the other end -----

  /** The receiving machine's view of the logged sends. */
  function SendEvents(log: seq<Entry<Post, bool>>, host: int): seq<PostOffice.Event> {
    if log == [] then []
    else
      var c := log[|log| - 1].cmd;
      SendEvents(log[..|log| - 1], host)
        + if c.mail.pktHdr.to == host then [PostOffice.Send(c.mail, c.lost, c.junk)] else []
  }

  lemma OneSend(o: PostOffice.Office, c: Post)
    requires c.mail.pktHdr.to == o.host
    ensures var r := PostOffice.Step(o, PostOffice.Send(c.mail, c.lost, c.junk));
      r.Next? && r.state.host == o.host && r.state.socket == o.socket + if c.lost then [] else [Packet(c.mail, c.junk)]
  {
    hide Packet, Legal;
  }

  lemma NoSend(o: PostOffice.Office)
    requires PostOffice.Initial(o)
    ensures PostOffice.Exec(o, []) == Next(o) && o.socket == []
  {
  }

  lemma {:induction false} SendsReachOffice(o: PostOffice.Office, log: seq<Entry<Post, bool>>)
    requires PostOffice.Initial(o)
    ensures var r := PostOffice.Exec(o, SendEvents(log, o.host));
      r.Next? && r.state.host == o.host && r.state.socket == Delivered(log, o.host)
  {
    hide PostOffice.Exec, PostOffice.Step, PostOffice.Initial, Packet, Posted;
    if log == [] {
      NoSend(o);
    } else {
      var front := log[..|log| - 1];
      var c := log[|log| - 1].cmd;
      SendsReachOffice(o, front);
      if c.mail.pktHdr.to == o.host {
        OneSend(PostOffice.Exec(o, SendEvents(front, o.host)).state, c);
        PostOffice.ExecOne(o, SendEvents(front, o.host), PostOffice.Send(c.mail, c.lost, c.junk));
      } else {
        assert SendEvents(log, o.host) == SendEvents(front, o.host)
            && Delivered(log, o.host) == Delivered(front, o.host);
      }
    }
  }

  /** From machine to machine: the socket a sending machine fills, however its threads interleave, is the socket of the
      receiving machine after the corresponding Send events. */
  lemma MachineToMachine(start: Dev<Net, Post, bool>, run: seq<Event<Post>>, d: Dev<Net, Post, bool>,
      o: PostOffice.Office)
    requires Initial(start) && start.state == map[] && Exec(Transmit, start, run) == Next(d) && PostOffice.Initial(o)
    ensures var r := PostOffice.Exec(o, SendEvents(d.log, o.host));
      r.Next? && r.state.socket == SocketOf(d.state, o.host)
  {
    SendsInTurn(start, run, d, o.host);
    SendsReachOffice(o, d.log);
  }
}
