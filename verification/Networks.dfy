/** Any number of machines that send, each through its own device and threads, and one that receives (network/post.cc,
    machine/network.cc). */
module Networks {
  import opened Base
  import opened Bytes
  import opened Wire
  import opened Posting
  import D = Device
  import P = PostOffice

  type Sender = D.Dev<Net, Post, bool>

  datatype World = World(senders: map<int, Sender>, office: P.Office)

  /** Something happens in the sending half of machine `host`, or at the receiving machine. */
  datatype Event = At(host: int, sending: D.Event<Post>) | Here(receiving: P.Event)

  /** PostOfficeOutput::Send writes its own machine into the header. */
  predicate Stamped(host: int, e: D.Event<Post>) { e.Run? ==> e.cmd.mail.pktHdr.from == host }

  function SendOf(c: Post): P.Event { P.Send(c.mail, c.lost, c.junk) }

  /** What a packet just handed to the network does at the receiving machine; NetworkOutput::Send asserts its sender. */
  function Arrive(o: P.Office, host: int, c: Post): Outcome<P.Office> {
    if c.mail.pktHdr.from != host then AssertFails
    else if c.mail.pktHdr.to == o.host then P.Step(o, SendOf(c))
    else Next(o)
  }

  function Step(w: World, e: Event): Outcome<World> {
    match e
    case At(h, f) =>
      if h !in w.senders || !Stamped(h, f) then Disabled
      else (
        match D.Step(Transmit, w.senders[h], f)
        case Disabled => Disabled
        case AssertFails => AssertFails
        case Next(d) =>
          if |d.log| <= |w.senders[h].log| then Next(w.(senders := w.senders[h := d]))
          else (
            match Arrive(w.office, h, d.log[|d.log| - 1].cmd)
            case Disabled => Disabled
            case AssertFails => AssertFails
            case Next(o) => Next(World(w.senders[h := d], o))))
    case Here(f) =>
      if f.Send? then Disabled
      else (
        match P.Step(w.office, f)
        case Disabled => Disabled
        case AssertFails => AssertFails
        case Next(o) => Next(w.(office := o)))
  }

  function Exec(w: World, run: seq<Event>): Outcome<World> {
    if run == [] then Next(w)
    else
      var before := Exec(w, run[..|run| - 1]);
      if before.Next? then Step(before.state, run[|run| - 1]) else before
  }

  ghost predicate Initial(w: World) {
    P.Initial(w.office) && forall h :: h in w.senders ==> D.Initial(w.senders[h])
  }

  // ----- invariants -----

  /** The messages a sender's log holds for a machine and the network did not lose. */
  function Mails(log: seq<D.Entry<Post, bool>>, to: int): seq<Mail> {
    if log == [] then []
    else
      var c := log[|log| - 1].cmd;
      Mails(log[..|log| - 1], to) + if c.mail.pktHdr.to == to && !c.lost then [c.mail] else []
  }

  /** Every message on its way to the device carries its machine. */
  ghost predicate Honest(host: int, d: Sender) {
    forall t :: t in d.pc ==> forall c :: c in D.Asked(d.pc[t]) ==> c.mail.pktHdr.from == host
  }

  /** What the receiving machine was sent from a machine is what that machine's device transmitted to it. */
  ghost predicate Agrees(host: int, d: Sender, o: P.Office) {
    P.FromHost(P.Kept(o.sent), host) == Mails(d.log, o.host)
  }

  ghost predicate SenderInv(start: World, w: World, h: int)
    requires h in start.senders && h in w.senders
  {
    && D.Inv(Transmit, start.senders[h].state, w.senders[h])
    && Honest(h, w.senders[h]) && Agrees(h, w.senders[h], w.office)
  }

  ghost predicate Inv(start: World, w: World) {
    && P.Inv(w.office) && w.senders.Keys == start.senders.Keys
    && forall h :: h in w.senders ==> SenderInv(start, w, h)
  }

  lemma InitialInv(w: World)
    requires Initial(w)
    ensures Inv(w, w)
  {
    P.InitialInv(w.office);
    forall h | h in w.senders ensures SenderInv(w, w, h) {
      D.InitialInv(Transmit, w.senders[h]);
    }
  }

  // ----- one step -----

  lemma MailsOne(log: seq<D.Entry<Post, bool>>, x: D.Entry<Post, bool>, to: int)
    ensures Mails(log + [x], to)
         == Mails(log, to) + if x.cmd.mail.pktHdr.to == to && !x.cmd.lost then [x.cmd.mail] else []
  {
    assert (log + [x])[..|log|] == log;
  }

  lemma FromHostOne(s: seq<Mail>, m: Mail, h: int)
    ensures P.FromHost(s + [m], h) == P.FromHost(s, h) + if m.pktHdr.from == h then [m] else []
  {
    assert (s + [m])[..|s|] == s;
  }

  /** A message sent to the office: the history grows by it. */
  lemma SendAgrees(o: P.Office, c: Post, h: int)
    requires c.mail.pktHdr.to == o.host
    ensures var r := P.Step(o, SendOf(c));
            && r.Next? && r.state.host == o.host
            && P.FromHost(P.Kept(r.state.sent), h)
               == P.FromHost(P.Kept(o.sent), h) + if c.mail.pktHdr.from == h && !c.lost then [c.mail] else []
  {
    hide Packet, Legal, P.FromHost, P.Kept;
    P.KeptAppend(o.sent, P.Sent(c.mail, c.lost));
    FromHostOne(P.Kept(o.sent), c.mail, h);
    assert P.Kept(o.sent) + [] == P.Kept(o.sent);
  }

  lemma ArriveKeeps(o: P.Office, host: int, c: Post)
    requires P.Inv(o) && c.mail.pktHdr.from == host
    ensures var r := Arrive(o, host, c);
            && r.Next? && P.Inv(r.state) && r.state.host == o.host
            && forall h :: P.FromHost(P.Kept(r.state.sent), h)
                           == P.FromHost(P.Kept(o.sent), h)
                              + if h == host && c.mail.pktHdr.to == o.host && !c.lost then [c.mail] else []
  {
    hide P.Inv, P.Step, P.FromHost, P.Kept, Posted, SendOf;
    if c.mail.pktHdr.to == o.host {
      P.StepKeeps(o, SendOf(c));
      SendAgrees(o, c, host);
      forall h ensures P.FromHost(P.Kept(P.Step(o, SendOf(c)).state.sent), h)
                    == P.FromHost(P.Kept(o.sent), h) + if h == host && !c.lost then [c.mail] else []
      {
        SendAgrees(o, c, h);
      }
    }
  }

  /** A step of a sender: its log grows by at most the message that was on its way, and messages stay honest. */
  lemma SenderStep(h: int, start: Net, d: Sender, e: D.Event<Post>)
    requires D.Inv(Transmit, start, d) && Honest(h, d) && Stamped(h, e)
    ensures var r := D.Step(Transmit, d, e);
            && !r.AssertFails?
            && (r.Next? ==>
                  && D.Inv(Transmit, start, r.state) && Honest(h, r.state) && D.Advances(d, e, r.state)
                  && (|r.state.log| > |d.log| ==> r.state.log[|r.state.log| - 1].cmd.mail.pktHdr.from == h))
  {
    hide *;
    D.StepKeeps(Transmit, start, d, e);
    if D.Step(Transmit, d, e).Next? {
      D.StepAdvances(Transmit, d, e);
      HonestKept(h, d, e, D.Step(Transmit, d, e).state);
    }
  }

  lemma HonestKept(h: int, d: Sender, e: D.Event<Post>, d': Sender)
    requires Honest(h, d) && Stamped(h, e) && D.Advances(d, e, d')
    ensures Honest(h, d')
    ensures |d'.log| > |d.log| ==> d'.log[|d'.log| - 1].cmd.mail.pktHdr.from == h
  {
    if e.Run? {
      var t := e.thread;
      if d.pc[t].Request? {
        assert d.pc[t].cmd in D.Asked(d.pc[t]);
      } else {
        assert forall c :: c in D.Asked(d'.pc[t]) ==> c in D.Asked(d.pc[t]) || c == e.cmd;
      }
      hide D.Asked;
    }
  }

  lemma LogMails(d: Sender, e: D.Event<Post>, d': Sender, to: int)
    requires D.Advances(d, e, d')
    ensures |d'.log| <= |d.log| ==> Mails(d'.log, to) == Mails(d.log, to)
    ensures |d'.log| > |d.log| ==>
              var c := d'.log[|d'.log| - 1].cmd;
              Mails(d'.log, to) == Mails(d.log, to) + if c.mail.pktHdr.to == to && !c.lost then [c.mail] else []
  {
    hide Mails;
    if e.Run? && d.pc[e.thread].Request? {
      assert d'.log == d.log + [d'.log[|d.log|]];
      MailsOne(d.log, d'.log[|d.log|], to);
    }
  }

  lemma AtKeeps(start: World, w: World, h: int, e: D.Event<Post>)
    requires Inv(start, w) && h in w.senders && Stamped(h, e)
    ensures var r := Step(w, At(h, e)); !r.AssertFails? && (r.Next? ==> Inv(start, r.state))
  {
    hide *;
    var d := w.senders[h];
    InvParts(start, w, h);
    SenderStep(h, start.senders[h].state, d, e);
    var r := D.Step(Transmit, d, e);
    if r.Next? && |r.state.log| > |d.log| {
      var c := r.state.log[|r.state.log| - 1].cmd;
      ArriveKeeps(w.office, h, c);
      AtSends(w, h, e);
      SentKeeps(start, w, h, e, r.state, Arrive(w.office, h, c).state);
    } else {
      AtPasses(w, h, e);
      if r.Next? {
        PassedKeeps(start, w, h, e, r.state);
      }
    }
  }

  lemma InvParts(start: World, w: World, h: int)
    requires Inv(start, w) && h in w.senders
    ensures h in start.senders && P.Inv(w.office) && D.Inv(Transmit, start.senders[h].state, w.senders[h])
    ensures Honest(h, w.senders[h])
  {
    assert SenderInv(start, w, h);
    hide P.Inv, D.Inv, Honest;
  }

  lemma AtSends(w: World, h: int, e: D.Event<Post>)
    requires h in w.senders && Stamped(h, e) && D.Step(Transmit, w.senders[h], e).Next?
    requires |D.Step(Transmit, w.senders[h], e).state.log| > |w.senders[h].log|
    ensures var d := D.Step(Transmit, w.senders[h], e).state;
            var a := Arrive(w.office, h, d.log[|d.log| - 1].cmd);
            a.Next? ==> Step(w, At(h, e)) == Next(World(w.senders[h := d], a.state))
  {
    hide D.Step, Arrive, Stamped;
  }

  lemma AtPasses(w: World, h: int, e: D.Event<Post>)
    requires h in w.senders && Stamped(h, e)
    ensures var r := D.Step(Transmit, w.senders[h], e);
            && (r.Disabled? ==> Step(w, At(h, e)).Disabled?)
            && (r.Next? && |r.state.log| <= |w.senders[h].log| ==>
                  Step(w, At(h, e)) == Next(w.(senders := w.senders[h := r.state])))
  {
    hide D.Step, Arrive, Stamped;
  }

  lemma SentKeeps(start: World, w: World, h: int, e: D.Event<Post>, d: Sender, o: P.Office)
    requires Inv(start, w) && h in w.senders && h in start.senders && P.Inv(o) && o.host == w.office.host
    requires D.Inv(Transmit, start.senders[h].state, d) && Honest(h, d) && D.Advances(w.senders[h], e, d)
    requires |d.log| > |w.senders[h].log|
    requires var c := d.log[|d.log| - 1].cmd;
             forall g :: P.FromHost(P.Kept(o.sent), g)
                         == P.FromHost(P.Kept(w.office.sent), g)
                            + if g == h && c.mail.pktHdr.to == o.host && !c.lost then [c.mail] else []
    ensures Inv(start, World(w.senders[h := d], o))
  {
    hide *;
    LogMails(w.senders[h], e, d, o.host);
    var w' := World(w.senders[h := d], o);
    InvKeys(start, w);
    forall g | g in w'.senders ensures SenderInv(start, w', g) {
      InvAgrees(start, w, g);
      SenderIs(start, w', g);
    }
    InvIs(start, w');
  }

  lemma InvKeys(start: World, w: World)
    requires Inv(start, w)
    ensures w.senders.Keys == start.senders.Keys && P.Inv(w.office)
  {
    hide P.Inv, SenderInv;
  }

  lemma InvAgrees(start: World, w: World, g: int)
    requires Inv(start, w)
    ensures g in w.senders ==>
              && g in start.senders && D.Inv(Transmit, start.senders[g].state, w.senders[g]) && Honest(g, w.senders[g])
              && P.FromHost(P.Kept(w.office.sent), g) == Mails(w.senders[g].log, w.office.host)
  {
    hide P.Inv, D.Inv, Honest, Mails, P.FromHost, P.Kept;
    assert g in w.senders ==> SenderInv(start, w, g);
  }

  lemma SenderIs(start: World, w: World, g: int)
    requires g in w.senders && g in start.senders
    requires D.Inv(Transmit, start.senders[g].state, w.senders[g]) && Honest(g, w.senders[g])
    requires P.FromHost(P.Kept(w.office.sent), g) == Mails(w.senders[g].log, w.office.host)
    ensures SenderInv(start, w, g)
  {
    hide D.Inv, Honest, Mails, P.FromHost, P.Kept;
  }

  lemma InvIs(start: World, w: World)
    requires P.Inv(w.office) && w.senders.Keys == start.senders.Keys
    requires forall h :: h in w.senders ==> SenderInv(start, w, h)
    ensures Inv(start, w)
  {
    hide P.Inv, SenderInv;
  }

  lemma PassedKeeps(start: World, w: World, h: int, e: D.Event<Post>, d: Sender)
    requires Inv(start, w) && h in w.senders && h in start.senders && |d.log| <= |w.senders[h].log|
    requires D.Inv(Transmit, start.senders[h].state, d) && Honest(h, d) && D.Advances(w.senders[h], e, d)
    ensures Inv(start, w.(senders := w.senders[h := d]))
  {
    hide *;
    LogMails(w.senders[h], e, d, w.office.host);
    var w' := w.(senders := w.senders[h := d]);
    InvKeys(start, w);
    forall g | g in w'.senders ensures SenderInv(start, w', g) {
      InvAgrees(start, w, g);
      SenderIs(start, w', g);
    }
    InvIs(start, w');
  }

  lemma SameSent(o: P.Office, e: P.Event)
    requires !e.Send? && P.Step(o, e).Next?
    ensures P.Step(o, e).state.sent == o.sent && P.Step(o, e).state.host == o.host
  {
    hide HeaderAt, P.Copied;
  }

  lemma HereKeeps(start: World, w: World, e: P.Event)
    requires Inv(start, w) && !e.Send?
    ensures var r := Step(w, Here(e));
            (r.AssertFails? <==> P.WrongBox(w.office, e)) && (r.Next? ==> Inv(start, r.state))
  {
    hide D.Inv, P.Inv, P.Step, Honest, Mails, P.FromHost, P.Kept, P.WrongBox;
    P.StepKeeps(w.office, e);
    if P.Step(w.office, e).Next? {
      SameSent(w.office, e);
      var w' := w.(office := P.Step(w.office, e).state);
      forall g | g in w'.senders ensures SenderInv(start, w', g) {
        assert SenderInv(start, w, g);
      }
    }
  }

  /** Every event keeps the invariant; the only ASSERTs that can fail are the receiver's, over a missing mailbox. */
  lemma StepKeeps(start: World, w: World, e: Event)
    requires Inv(start, w)
    ensures Step(w, e).AssertFails? <==> e.Here? && !e.receiving.Send? && P.WrongBox(w.office, e.receiving)
    ensures Step(w, e).Next? ==> Inv(start, Step(w, e).state)
  {
    hide Inv, P.WrongBox, D.Step, P.Step, Arrive, Stamped;
    match e
    case At(h, f) =>
      if h in w.senders && Stamped(h, f) {
        AtKeeps(start, w, h, f);
      }
    case Here(f) =>
      if !f.Send? {
        HereKeeps(start, w, f);
      }
  }

  lemma {:induction false} RunKeeps(start: World, run: seq<Event>, w: World)
    requires Initial(start) && Exec(start, run) == Next(w)
    ensures Inv(start, w)
  {
    hide Inv, Initial, Step;
    if run == [] {
      InitialInv(start);
    } else {
      var before := Exec(start, run[..|run| - 1]).state;
      RunKeeps(start, run[..|run| - 1], before);
      StepKeeps(start, before, run[|run| - 1]);
    }
  }

  // ----- from thread to mailbox -----

  lemma {:induction false} FiltersCommute(s: seq<Mail>, box: int, h: int)
    ensures P.FromHost(P.ForBox(s, box), h) == P.ForBox(P.FromHost(s, h), box)
  {
    if s == [] {
    } else {
      var (front, m) := (s[..|s| - 1], s[|s| - 1]);
      FiltersCommute(front, box, h);
      var here: seq<Mail> := if m.mailHdr.to == box then [m] else [];
      var ours: seq<Mail> := if m.pktHdr.from == h then [m] else [];
      P.FromHostAppend(P.ForBox(front, box), here, h);
      P.ForBoxAppend(P.FromHost(front, h), ours, box);
      OneCommutes(m, box, h);
    }
  }

  lemma OneCommutes(m: Mail, box: int, h: int)
    ensures P.FromHost(if m.mailHdr.to == box then [m] else [], h)
         == P.ForBox(if m.pktHdr.from == h then [m] else [], box)
  {
    assert [m][..0] == [];
  }

  /** The events of one machine's sending half. */
  function Own(run: seq<Event>, h: int): seq<D.Event<Post>> {
    if run == [] then []
    else
      var e := run[|run| - 1];
      Own(run[..|run| - 1], h) + if e.At? && e.host == h then [e.sending] else []
  }

  /** The messages the Receives from a mailbox return, in order. */
  function Obtained(start: World, run: seq<Event>, box: nat): seq<Mail> {
    if run == [] then []
    else
      var (before, e) := (Exec(start, run[..|run| - 1]), run[|run| - 1]);
      Obtained(start, run[..|run| - 1], box)
        + if before.Next? && e.Here? then P.ObtainedBy(before.state.office, e.receiving, box) else []
  }

  lemma ArriveHistory(o: P.Office, host: int, c: Post, box: nat)
    requires Arrive(o, host, c).Next? && box < |o.boxes| == |o.got|
    ensures var n := Arrive(o, host, c).state; |n.boxes| == |n.got| == |o.boxes| && n.got[box] == o.got[box]
  {
    hide P.Step;
    if c.mail.pktHdr.to == o.host {
      P.StepHistory(o, SendOf(c), box);
    }
  }

  lemma StepHistory(w: World, e: Event, box: nat)
    requires Step(w, e).Next? && box < |w.office.boxes| == |w.office.got|
    ensures var o := Step(w, e).state.office;
            && |o.boxes| == |o.got| == |w.office.boxes|
            && o.got[box] == w.office.got[box] + if e.Here? then P.ObtainedBy(w.office, e.receiving, box) else []
  {
    hide P.Step, D.Step, Arrive, P.ObtainedBy;
    match e
    case At(h, f) =>
      var d := D.Step(Transmit, w.senders[h], f).state;
      if |d.log| > |w.senders[h].log| {
        ArriveHistory(w.office, h, d.log[|d.log| - 1].cmd, box);
      }
    case Here(f) => P.StepHistory(w.office, f, box);
  }

  lemma {:induction false} ObtainedIs(start: World, run: seq<Event>, w: World, box: nat)
    requires Initial(start) && Exec(start, run) == Next(w) && box < |start.office.boxes|
    ensures |w.office.boxes| == |w.office.got| == |start.office.boxes|
    ensures w.office.got[box] == Obtained(start, run, box)
  {
    if run == [] {
    } else {
      hide Initial, Step, P.ObtainedBy;
      var before := Exec(start, run[..|run| - 1]).state;
      ObtainedIs(start, run[..|run| - 1], before, box);
      StepHistory(before, run[|run| - 1], box);
    }
  }

  /** In every run of any number of machines, what the Receives from a mailbox have returned from a machine is the
      beginning of what that machine's device transmitted to the mailbox and the network did not lose: unchanged, in
      order, nothing twice.  With what waits in the mailbox it is all of that when nothing is on its way. */
  lemma MailInOrder(start: World, run: seq<Event>, w: World, h: int, box: nat)
    requires Initial(start) && Exec(start, run) == Next(w) && h in start.senders && box < |start.office.boxes|
    ensures h in w.senders && |w.office.boxes| == |start.office.boxes|
    ensures P.FromHost(Obtained(start, run, box) + w.office.boxes[box], h)
         <= P.ForBox(Mails(w.senders[h].log, w.office.host), box)
    ensures P.Quiet(w.office) ==>
      P.FromHost(Obtained(start, run, box) + w.office.boxes[box], h)
      == P.ForBox(Mails(w.senders[h].log, w.office.host), box)
  {
    RunKeeps(start, run, w);
    ObtainedIs(start, run, w, box);
    hide *;
    InvKeys(start, w);
    InvAgrees(start, w, h);
    P.OrderKept(w.office, box);
    P.PrefixFrom(w.office.got[box] + w.office.boxes[box], P.ForBox(P.Kept(w.office.sent), box), h);
    FiltersCommute(P.Kept(w.office.sent), box, h);
  }

  lemma SenderMoves(w: World, e: Event, h: int)
    requires Step(w, e).Next? && h in w.senders
    ensures var w' := Step(w, e).state;
            && h in w'.senders
            && if e.At? && e.host == h then D.Step(Transmit, w.senders[h], e.sending) == Next(w'.senders[h])
               else w'.senders[h] == w.senders[h]
  {
    hide D.Step, P.Step, Arrive;
  }

  lemma OwnMore(d: Sender, own: seq<D.Event<Post>>, e: D.Event<Post>)
    requires D.Exec(Transmit, d, own).Next?
    ensures D.Exec(Transmit, d, own + [e]) == D.Step(Transmit, D.Exec(Transmit, d, own).state, e)
  {
    hide D.Step;
    assert (own + [e])[..|own|] == own;
  }

  /** Each machine's half is a run of the device protocol, by its own events. */
  lemma {:induction false} SenderRuns(start: World, run: seq<Event>, w: World, h: int)
    requires Initial(start) && Exec(start, run) == Next(w) && h in start.senders
    ensures h in w.senders && D.Exec(Transmit, start.senders[h], Own(run, h)) == Next(w.senders[h])
  {
    if run == [] {
    } else {
      hide D.Step, D.Exec, Step, Initial;
      var (front, e) := (run[..|run| - 1], run[|run| - 1]);
      var before := Exec(start, front).state;
      SenderRuns(start, front, before, h);
      SenderMoves(before, e, h);
      if e.At? && e.host == h {
        OwnMore(start.senders[h], Own(front, h), e.sending);
      } else {
        assert Own(run, h) == Own(front, h);
      }
    }
  }

  /** So what a machine transmits is what its threads' calls of Send handed over, each thread's in its own order. */
  lemma SendsOfThreads(start: World, run: seq<Event>, w: World, h: int, t: nat)
    requires Initial(start) && Exec(start, run) == Next(w) && h in start.senders && t in start.senders[h].pc
    ensures h in w.senders && t in w.senders[h].pc
    ensures D.Calls(Transmit, start.senders[h], Own(run, h), t)
         == D.Performed(w.senders[h].log, t) + D.Asked(w.senders[h].pc[t])
  {
    SenderRuns(start, run, w, h);
    assert D.Initial(start.senders[h]);
    hide *;
    D.CallsInOrder(Transmit, start.senders[h], Own(run, h), w.senders[h], t);
  }
}
