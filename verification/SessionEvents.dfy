/** The events of a session's life, and what a run of them is for the assembler, for the
    session timer and for the log. */
module SessionEvents {
  import opened Bytes
  import opened FrameAssembler
  import opened Sessions
  import opened Impl
  import opened ControlDecoding
  import opened Answers
  import Discovery
  import Liveness

  /** What the event loop calls a session with. */
  datatype Happens =
    | Connected(dev: Discovery.DevSerial, now: real)
    | Datagram(msg: Chunk, now: real, raises: bool, onLogin: OnLogin)
    | ResendRound(now: real, clock: nat -> real)
    | TimerTick(now: real)

  predicate ValidEvent(e: Happens) {
    e.Connected? ==> IsLatin1(e.dev.prefix) && IsLatin1(e.dev.suffix)
  }

  predicate ValidEvents(es: seq<Happens>) {
    forall i :: 0 <= i < |es| ==> ValidEvent(es[i])
  }

  // -- what the assembler and the session timer see of a run -------------------------------

  function DataEvent(e: Happens): seq<Event> {
    if e.Datagram? && IsData(e.msg) then [Event(Classify(e.msg), e.raises)] else []
  }

  function DataEvents(es: seq<Happens>): seq<Event> {
    if es == [] then [] else DataEvents(es[..|es| - 1]) + DataEvent(es[|es| - 1])
  }

  /** `st` is the assembler's state when the event arrives. */
  function Heard(e: Happens, st: Asm): seq<Liveness.Happening> {
    match e
    case Connected(_, _) => [Liveness.Started]
    case Datagram(msg, now, raises, _) => [Liveness.Received(IsAlive(msg), !Raises(msg, st, raises), Closes(msg), now)]
    case ResendRound(_, _) => []
    case TimerTick(now) => [Liveness.SessionTick(now)]
  }

  function AllHeard(es: seq<Happens>, fix: bool): seq<Liveness.Happening> {
    if es == [] then []
    else
      var before := es[..|es| - 1];
      AllHeard(before, fix) + Heard(es[|es| - 1], Run(INITIAL, DataEvents(before), fix).asm)
  }

  // -- what a run leaves in the log --------------------------------------------------------

  /** The transmission of a command, under an id handed out for it. */
  predicate UsesId(e: LogEntry) {
    match e
    case Login(_) => false
    case Sent(d) => IsCommand(d)
    case Resent(_, _) => true
  }

  /** How many ids were handed out. */
  function IdsIn(log: seq<LogEntry>): nat {
    if log == [] then 0 else IdsIn(log[..|log| - 1]) + if UsesId(log[|log| - 1]) then 1 else 0
  }

  predicate AllResent(log: seq<LogEntry>) {
    forall i :: 0 <= i < |log| ==> log[i].Resent?
  }

  /** What the event adds to the log, `live` being what the session timer sees at the time:
      a datagram its whole transcript, a round nothing but resends. */
  predicate Adds(e: Happens, log: seq<LogEntry>, part: seq<LogEntry>, live: Liveness.Live)
    requires ValidEvent(e)
  {
    match e
    case Connected(dev, _) => part == [Sent(Discovery.ReadyPacket(dev))]
    case Datagram(msg, _, _, onLogin) => part == Transcript(msg, IdsIn(log), LastLogin(log), onLogin)
    case ResendRound(_, _) => AllResent(part)
    case TimerTick(now) =>
      part == if live.started && now - live.lastReceived > 600.0 then [Sent(Keepalive(P2P_ALIVE))] else []
  }

  /** The log of a run: event by event, what each one adds. */
  ghost predicate Leaves(es: seq<Happens>, log: seq<LogEntry>, fix: bool, timeoutMs: real)
    requires ValidEvents(es)
    decreases |es|
  {
    if es == [] then log == []
    else
      var before := es[..|es| - 1];
      exists n :: 0 <= n <= |log| && Leaves(before, log[..n], fix, timeoutMs)
        && Adds(es[|es| - 1], log[..n], log[n..], Liveness.Run(Liveness.NEW, AllHeard(before, fix), timeoutMs))
  }

  lemma {:induction false} LeavesMore(es: seq<Happens>, log: seq<LogEntry>, part: seq<LogEntry>, fix: bool,
                                      timeoutMs: real)
    requires es != [] && ValidEvents(es) && Leaves(es[..|es| - 1], log, fix, timeoutMs)
    requires Adds(es[|es| - 1], log, part, Liveness.Run(Liveness.NEW, AllHeard(es[..|es| - 1], fix), timeoutMs))
    ensures Leaves(es, log + part, fix, timeoutMs)
  {
    assert (log + part)[..|log|] == log && (log + part)[|log|..] == part;
  }

  /** The tickets that the logins of a log brought, in order. */
  function Tickets(log: seq<LogEntry>): seq<Chunk> {
    if log == [] then []
    else Tickets(log[..|log| - 1]) + if log[|log| - 1].Login? then [log[|log| - 1].ticket] else []
  }

  /** The tickets in the ConnectUserAcks received, in order. */
  function TicketsReceived(es: seq<Happens>): seq<Chunk> {
    if es == [] then []
    else
      var e := es[|es| - 1];
      TicketsReceived(es[..|es| - 1]) + if e.Datagram? && IsLogin(e.msg) then [TicketIn(e.msg)] else []
  }

  lemma {:induction false} TicketsConcat(a: seq<LogEntry>, b: seq<LogEntry>)
    ensures Tickets(a + b) == Tickets(a) + Tickets(b)
    ensures IdsIn(a + b) == IdsIn(a) + IdsIn(b)
  {
    if b == [] {
      assert a + b == a;
    } else {
      var n := |b| - 1;
      TicketsConcat(a, b[..n]);
      assert (a + b)[..|a| + n] == a + b[..n];
    }
  }

  lemma {:induction false} SentBringsNoTicket(packets: seq<Chunk>)
    ensures Tickets(AllSent(packets)) == []
    ensures (forall k :: 0 <= k < |packets| ==> IsCommand(packets[k])) ==> IdsIn(AllSent(packets)) == |packets|
  {
    if packets != [] {
      var n := |packets| - 1;
      SentBringsNoTicket(packets[..n]);
      assert AllSent(packets)[..n] == AllSent(packets[..n]);
    }
  }

  lemma {:induction false} OneEntry(e: LogEntry)
    ensures Tickets([e]) == if e.Login? then [e.ticket] else []
    ensures IdsIn([e]) == if UsesId(e) then 1 else 0
    ensures Tickets([]) == [] && IdsIn([]) == 0
  {
    assert [e][..0] == [];
  }

  /** Every answer is a command, and uses up one id. */
  lemma {:induction false} AnswersAreCommands(msg: Chunk, id: nat, ticket: Chunk, onLogin: OnLogin)
    requires |ticket| <= 4
    ensures var packets := Commands(msg, id, ticket, onLogin);
            forall k :: 0 <= k < |packets| ==> IsCommand(packets[k])
  {
    hide ControlPacket, Payload, UserCheckData, DecodeControl;
    var packets := Commands(msg, id, ticket, onLogin);
    forall k | 0 <= k < |packets|
      ensures IsCommand(packets[k])
    {
      var t := if IsLogin(msg) then TicketIn(msg) else ticket;
      var payload := if k == 0 && Is(msg, Discovery.P2P_RDY) then Payload(Some(UserCheckData(ADMIN, ADMIN)))
        else if k == 0 && IsLogin(msg) && onLogin.StartStream? then Payload(Some(RESOLUTION_640x480))
        else Payload(None);
      var command := if Is(msg, Discovery.P2P_RDY) then CONNECT_USER
        else if IsLogin(msg) && onLogin.StartStream? then (if k == 0 then VIDEO_PARAM_SET else START_VIDEO)
        else LIST_WIFI;
      ControlPacketFields(command, id + k, t, payload);
    }
  }

  lemma {:induction false} TranscriptCounts(msg: Chunk, id: nat, ticket: Chunk, onLogin: OnLogin)
    ensures var log, packets := Transcript(msg, id, ticket, onLogin), Commands(msg, id, ticket, onLogin);
            && (|ticket| <= 4 ==> IdsIn(log) == |packets|)
            && Tickets(log) == if IsLogin(msg) then [TicketIn(msg)] else []
  {
    hide ControlCommands, UserCheck, AckPacket, Keepalive, IsCommand, Tickets, IdsIn, IsUserAck;
    var packets := Commands(msg, id, ticket, onLogin);
    if |ticket| <= 4 {
      AnswersAreCommands(msg, id, ticket, onLogin);
    }
    SentBringsNoTicket(packets);
    KeepaliveUsesNoId(P2P_ALIVE_ACK);
    OneEntry(Sent(Keepalive(P2P_ALIVE_ACK)));
    OneEntry(Sent(UserCheck(id, ticket)));
    if 8 <= |msg| {
      AckUsesNoId(BE16(msg, 6), msg[5]);
      OneEntry(Sent(AckPacket(BE16(msg, 6), msg[5])));
    }
    if IsControl(msg) {
      var logins := if IsUserAck(msg) then [Login(TicketIn(msg))] else [];
      if IsUserAck(msg) {
        OneEntry(Login(TicketIn(msg)));
      }
      TicketsConcat(logins, AllSent(packets));
      TicketsConcat(AckFor(msg), ControlLog(msg, id, ticket, onLogin));
    } else if Is(msg, Discovery.P2P_RDY) {
      assert |ticket| <= 4 ==> IsCommand(packets[0]);
    } else {
      assert AckFor(msg) + [] == AckFor(msg);
    }
  }

  lemma {:induction false} AckUsesNoId(id: nat, stream: Byte)
    ensures !IsCommand(AckPacket(id, stream))
  {
    assert AckPacket(id, stream)[0..2] == U16(DRW_ACK);
    ReadU16Field(AckPacket(id, stream), 0, DRW_ACK);
  }

  lemma {:induction false} KeepaliveUsesNoId(command: nat)
    ensures |Keepalive(command)| == 4 && !IsCommand(Keepalive(command))
  {
  }

  /** The logins in the log of a run are those of the datagrams received, in order. */
  lemma {:induction false} LoginsAreReceived(es: seq<Happens>, log: seq<LogEntry>, fix: bool, timeoutMs: real)
    requires ValidEvents(es) && Leaves(es, log, fix, timeoutMs)
    ensures Tickets(log) == TicketsReceived(es)
  {
    hide Tickets, Adds, AllHeard, Liveness.Run, IsUserAck, IsControl;
    if es == [] {
      OneEntry(Login([]));
    } else {
      var before, e := es[..|es| - 1], es[|es| - 1];
      var live := Liveness.Run(Liveness.NEW, AllHeard(before, fix), timeoutMs);
      var n :| 0 <= n <= |log| && Leaves(before, log[..n], fix, timeoutMs) && Adds(e, log[..n], log[n..], live);
      LoginsAreReceived(before, log[..n], fix, timeoutMs);
      TicketsConcat(log[..n], log[n..]);
      assert log == log[..n] + log[n..];
      TicketsAdded(e, log[..n], log[n..], live);
    }
  }

  lemma {:induction false} TicketsAdded(e: Happens, log: seq<LogEntry>, part: seq<LogEntry>, live: Liveness.Live)
    requires ValidEvent(e) && Adds(e, log, part, live)
    ensures Tickets(part) == if e.Datagram? && IsLogin(e.msg) then [TicketIn(e.msg)] else []
  {
    hide IsUserAck, Transcript, Keepalive;
    match e
    case Connected(dev, _) => OneEntry(Sent(Discovery.ReadyPacket(dev)));
    case Datagram(msg, _, _, onLogin) => TranscriptCounts(msg, IdsIn(log), LastLogin(log), onLogin);
    case ResendRound(_, _) => ResentBringsNoTicket(part);
    case TimerTick(_) => OneEntry(Sent(Keepalive(P2P_ALIVE)));
  }

  lemma {:induction false} ResentBringsNoTicket(part: seq<LogEntry>)
    requires AllResent(part)
    ensures Tickets(part) == [] && IdsIn(part) == |part|
  {
    if part != [] {
      ResentBringsNoTicket(part[..|part| - 1]);
    }
  }
}
