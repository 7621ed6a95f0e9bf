/** cam_reverse/session.py: one camera session, from the moment its transport exists.
    Commands wait in `unackedDrw` inside the very buffers that were sent; the resend timer
    renumbers them in place. */
module Sessions {
  import opened Bytes
  import opened DataView
  import opened Channel
  import opened FrameAssembler
  import ChannelRuns
  import SessionChannel
  import Liveness

  const DRW: nat := 0xF1D0
  const COMMAND_TAG: Byte := 0xD1
  const START_VIDEO: nat := 0x1030
  const VIDEO_PARAM_SET: nat := 0x1830

  /** What happened, for specifications: a login with its ticket, a datagram handed to the
      transport for the first time, and the renumbered resend of the command whose first
      transmission is entry `origin` of the log. */
  datatype LogEntry = Login(ticket: Chunk) | Sent(datagram: Chunk) | Resent(origin: nat, datagram: Chunk)

  /** `send` can read the datagram's header. */
  predicate Sendable(d: Chunk) {
    2 <= |d| && (BE16(d, 0) == DRW ==> 8 <= |d|)
  }

  /** A Drw command, which is kept until acknowledged (a Drw ack is not). */
  predicate IsCommand(d: Chunk) {
    8 <= |d| && BE16(d, 0) == DRW && d[4] == COMMAND_TAG
  }

  function IdOf(d: Chunk): nat
    requires 8 <= |d|
  {
    BE16(d, 6)
  }

  predicate IsVideoCommand(d: Chunk) {
    20 <= |d| && IsCommand(d) && (BE16(d, 10) == START_VIDEO || BE16(d, 10) == VIDEO_PARAM_SET)
  }

  /** Equal up to the id at bytes 6 and 7. */
  predicate SameButId(a: Chunk, b: Chunk) {
    |a| == |b| && forall k :: 0 <= k < |a| && k != 6 && k != 7 ==> a[k] == b[k]
  }

  /** The four bytes that a ticket occupies in a packet. */
  function PadTicket(t: Chunk): (p: Chunk)
    ensures |p| == 4 && forall k :: 0 <= k < 4 ==> p[k] == if k < |t| then t[k] else 0
  {
    if |t| >= 4 then t[..4] else t + Zeros(4 - |t|)
  }

  function LastLogin(log: seq<LogEntry>): Chunk {
    if log == [] then [0, 0, 0, 0]
    else match log[|log| - 1]
      case Login(t) => t
      case _ => LastLogin(log[..|log| - 1])
  }

  /** Entry `o` of the log is the first transmission of a packet that now reads `d`. */
  predicate FirstSentAs(log: seq<LogEntry>, o: nat, d: Chunk) {
    o < |log| && log[o].Sent? && SameButId(log[o].datagram, d)
  }

  /** A video command sent for the first time carries the ticket of the login that is then
      the last one; a resend is its own first transmission under another id. */
  predicate EntryOk(log: seq<LogEntry>, i: nat)
    requires i < |log|
  {
    match log[i]
    case Login(_) => true
    case Sent(d) => IsVideoCommand(d) ==> d[16..20] == PadTicket(LastLogin(log[..i]))
    case Resent(o, d) => o < i && FirstSentAs(log, o, d)
  }

  predicate LogOk(log: seq<LogEntry>) {
    forall i :: 0 <= i < |log| ==> EntryOk(log, i)
  }

  lemma {:induction false} LogOkMore(log: seq<LogEntry>, e: LogEntry)
    requires LogOk(log) && EntryOk(log + [e], |log|)
    ensures LogOk(log + [e])
  {
    forall i | 0 <= i < |log|
      ensures EntryOk(log + [e], i)
    {
      assert EntryOk(log, i);
      assert (log + [e])[..i] == log[..i];
    }
  }

  /** The log entry that transmits `i`'s command for the first time. */
  function FirstTransmission(log: seq<LogEntry>, i: nat): nat
    requires i < |log|
  {
    if log[i].Resent? then log[i].origin else i
  }

  /** Main result on tickets: every video command ever transmitted, original or renumbered
      resend, carries the ticket of the login that was the last when this very command was
      transmitted for the first time, and nothing of it but its id ever changes. */
  lemma {:induction false} TransmittedTicket(log: seq<LogEntry>, i: nat)
    requires LogOk(log) && i < |log| && !log[i].Login? && IsVideoCommand(log[i].datagram)
    ensures var o := FirstTransmission(log, i);
            && FirstSentAs(log, o, log[i].datagram)
            && log[i].datagram[16..20] == PadTicket(LastLogin(log[..o]))
  {
    assert EntryOk(log, i);
    var o := FirstTransmission(log, i);
    assert EntryOk(log, o);
    assert log[o].datagram[16..20] == log[i].datagram[16..20];
  }

  /** The dictionary after `msg`, with content `d`, was sent: a command is remembered. */
  function Registered(u: seq<Pending<DV>>, msg: DV, d: Chunk, now: real): seq<Pending<DV>> {
    if IsCommand(d) then Put(u, Pending(IdOf(d), now, msg)) else u
  }

  /** No two packets have the same first transmission in a log of this length. */
  ghost predicate Distinct(origins: map<ByteBuffer, nat>, length: nat) {
    && (forall b :: b in origins ==> origins[b] < length)
    && (forall a, b :: a in origins && b in origins && a != b ==> origins[a] != origins[b])
  }

  /** The log shows the first transmission of the packet in `buf`: nothing of it but its id
      has changed since. */
  ghost predicate HasOrigin(log: seq<LogEntry>, origins: map<ByteBuffer, nat>, buf: ByteBuffer)
    reads buf
  {
    buf in origins && FirstSentAs(log, origins[buf], buf.data)
  }

  /** The log entry for one transmission of `buf`, which holds `d`. */
  function EntryFor(origins: map<ByteBuffer, nat>, buf: ByteBuffer, d: Chunk, first: bool): LogEntry {
    if first then Sent(d) else Resent(OriginOf(origins, buf), d)
  }

  /** What a round does to the bytes of entry `i` of its snapshot. */
  ghost predicate EntryDone(c: Chan<DV>, now: real, i: nat, was: Chunk, became: Chunk)
    requires i < |c.unacked|
  {
    if Aged(c.unacked[i], now) then SameButId(was, became) && 8 <= |became| && IdOf(became) == NewId(c, now, i)
    else became == was
  }

  /** The contents of the waiting buffers, in order. */
  ghost function Contents(u: seq<Pending<DV>>): (r: seq<Chunk>)
    reads set i | 0 <= i < |u| :: u[i].data.buf
    ensures |r| == |u| && forall i :: 0 <= i < |u| ==> r[i] == u[i].data.buf.data
  {
    if u == [] then [] else Contents(u[..|u| - 1]) + [u[|u| - 1].data.buf.data]
  }

  predicate SeparateBuffers(u: seq<Pending<DV>>) {
    forall i, j :: 0 <= i < j < |u| ==> u[i].data.buf != u[j].data.buf
  }

  /** Every waiting command is kept under the id that its own buffer holds, and no two share
      a buffer. */
  ghost predicate DictOk(u: seq<Pending<DV>>)
    reads set i | 0 <= i < |u| :: u[i].data.buf
  {
    && (forall i :: 0 <= i < |u| ==>
          var dv := u[i].data;
          dv.offset == 0 && IsCommand(dv.buf.data) && u[i].key == IdOf(dv.buf.data))
    && UniqueKeys(u)
    && SeparateBuffers(u)
  }

  lemma {:induction false} RegisteredOk(u: seq<Pending<DV>>, msg: DV, now: real)
    requires DictOk(u) && msg.offset == 0
    ensures DictOk(Registered(u, msg, msg.buf.data, now))
    ensures UniqueKeys(u) && DistinctData(u)
    ensures forall i :: 0 <= i < |u| && u[i].data == msg ==> 8 <= |msg.buf.data| && u[i].key == IdOf(msg.buf.data)
    ensures forall k :: 0 <= k < |Registered(u, msg, msg.buf.data, now)| ==>
      var e := Registered(u, msg, msg.buf.data, now)[k]; e.data == msg || e in u
  {
    if IsCommand(msg.buf.data) {
      ChannelRuns.PutKeeps(u, Pending(IdOf(msg.buf.data), now, msg));
    }
  }

  /** What a round relies on about its snapshot, `was` being the contents of its buffers. */
  predicate SnapshotOk(u: seq<Pending<DV>>, was: seq<Chunk>) {
    && |was| == |u| && UniqueKeys(u) && SeparateBuffers(u)
    && forall i :: 0 <= i < |u| ==> u[i].data.offset == 0 && IsCommand(was[i]) && u[i].key < 0x1_0000
  }

  /** What a round transmits for the first `i` entries: the aged ones, in order, `held`
      being what the buffers hold when it is over. */
  ghost function RoundLog(c: Chan<DV>, now: real, origins: map<ByteBuffer, nat>, held: seq<Chunk>,
                          i: nat): seq<LogEntry>
    requires i <= |c.unacked| && i <= |held|
  {
    if i == 0 then []
    else
      var before, buf := RoundLog(c, now, origins, held, i - 1), c.unacked[i - 1].data.buf;
      if Aged(c.unacked[i - 1], now) then before + [Resent(OriginOf(origins, buf), held[i - 1])] else before
  }

  /** Where the log shows the first transmission of the packet in `buf`. */
  function OriginOf(origins: map<ByteBuffer, nat>, buf: ByteBuffer): nat {
    if buf in origins then origins[buf] else 0
  }

  /** Later turns do not touch what was sent. */
  lemma {:induction false} RoundLogStays(c: Chan<DV>, now: real, origins: map<ByteBuffer, nat>,
                                         held: seq<Chunk>, held': seq<Chunk>, i: nat)
    requires i <= |c.unacked| && i <= |held| == |held'|
    requires forall k :: 0 <= k < i ==> held[k] == held'[k]
    ensures RoundLog(c, now, origins, held, i) == RoundLog(c, now, origins, held', i)
  {
    if i > 0 {
      RoundLogStays(c, now, origins, held, held', i - 1);
    }
  }

  /** In a round, entries before `i` are done and the others still hold what they held. */
  ghost predicate RoundUpTo(c: Chan<DV>, now: real, was: seq<Chunk>, i: nat)
    reads set k | 0 <= k < |c.unacked| :: c.unacked[k].data.buf
  {
    && |was| == |c.unacked| && i <= |was|
    && (forall j :: i <= j < |was| ==> c.unacked[j].data.buf.data == was[j])
    && (forall j :: 0 <= j < i ==> EntryDone(c, now, j, was[j], c.unacked[j].data.buf.data))
  }

  /** What a "disconnect" listener does: the session's own, or the one of the HTTP server,
      which drops the device from its dictionary. */
  datatype Listener = OwnDisconnect | DropDevice(devId: string)

  /** The devices that these listeners drop. */
  function Dropped(ls: seq<Listener>): set<string> {
    if ls == [] then {}
    else Dropped(ls[..|ls| - 1]) + match ls[|ls| - 1]
      case OwnDisconnect => {}
      case DropDevice(devId) => {devId}
  }

  /** The `sessions` dictionary of cam_reverse/http_server.py, shared by the listeners of all
      sessions. */
  class Devices {
    var sessions: map<string, Session>

    constructor ()
      ensures sessions == map[]
    {
      sessions := map[];
    }
  }

  class Session {
    const devName: string
    const timeoutMs: real
    const devices: Devices
    var dstIp: string
    var outgoingCommandId: nat
    var ticket: Chunk
    var lastReceivedPacket: real
    var connected: bool
    var started: bool
    var transportOpen: bool
    var timersRunning: bool
    var unackedDrw: seq<Pending<DV>>
    var curImage: Image
    var rcvSeqId: nat
    var frameIsBad: bool
    var frameWasFixed: bool
    var disconnectListeners: seq<Listener>
    ghost var log: seq<LogEntry>
    ghost var origins: map<ByteBuffer, nat>   // where the log shows the first transmission of a command
    ghost var steps: seq<ChannelRuns.Step<DV>>   // what happened to the command channel
    ghost var frames: seq<Image>   // every image handed to the "frame" listeners

    constructor (devName: string, ip: string, timeoutMs: real, devices: Devices)
      ensures Valid() && TicketsOk() && Recorded()
      ensures this.devName == devName && this.timeoutMs == timeoutMs && this.devices == devices && dstIp == ip
      ensures LiveState() == Liveness.NEW && !transportOpen && !timersRunning
      ensures Chan() == Channel.Chan(0, []) && Asm() == INITIAL
      ensures log == [] && steps == [] && frames == [] && disconnectListeners == [OwnDisconnect]
    {
      this.devName, this.timeoutMs, this.devices, dstIp := devName, timeoutMs, devices, ip;
      outgoingCommandId, ticket, unackedDrw := 0, [0, 0, 0, 0], [];
      lastReceivedPacket, connected, started := 0.0, true, false;
      transportOpen, timersRunning := false, false;
      curImage, rcvSeqId, frameIsBad, frameWasFixed := [], 0, false, false;
      disconnectListeners, log, origins, steps, frames := [OwnDisconnect], [], map[], [], [];
    }

    /** The state of the command channel. */
    ghost function Chan(): Chan<DV>
      reads `outgoingCommandId, `unackedDrw
    {
      Channel.Chan(outgoingCommandId, unackedDrw)
    }

    /** The state of the frame assembler. */
    function Asm(): Asm
      reads `curImage, `rcvSeqId, `frameIsBad, `frameWasFixed
    {
      FrameAssembler.Asm(curImage, rcvSeqId, frameIsBad, frameWasFixed)
    }

    ghost function Buffers(): set<ByteBuffer>
      reads `unackedDrw
    {
      set i | 0 <= i < |unackedDrw| :: unackedDrw[i].data.buf
    }

    ghost predicate Valid()
      reads `unackedDrw, `ticket, `disconnectListeners, Buffers()
    {
      DictOk(unackedDrw) && |ticket| <= 4 && OwnDisconnect in disconnectListeners
    }

    /** The ticket is the last login's, the log is in order, and every waiting command has
        its own first transmission in it. */
    ghost predicate TicketsOk()
      reads `unackedDrw, `ticket, `log, `origins, Buffers()
    {
      && ticket == LastLogin(log)
      && LogOk(log)
      && OriginsOk(unackedDrw, origins, log)
    }

    /** The state of the channel is the result of a session run, the one recorded. */
    ghost predicate Recorded()
      reads `steps, `outgoingCommandId, `unackedDrw
    {
      SessionChannel.SessionRun(steps) && SessionChannel.After(steps) == Chan()
    }

    /** `send`.  For specifications, `first` says whether `msg` is sent for the first time. */
    method Send(msg: DV, now: real, ghost first: bool)
      requires Valid() && msg.offset == 0 && Sendable(msg.buf.data)
      modifies this`unackedDrw, this`log, this`origins
      ensures Valid()
      ensures unackedDrw == Registered(old(unackedDrw), msg, msg.buf.data, now)
      ensures log == old(log) + [EntryFor(old(origins), msg.buf, msg.buf.data, first)]
      ensures origins == if first then old(origins)[msg.buf := |old(log)|] else old(origins)
      ensures Buffers() <= old(Buffers()) + {msg.buf}
      ensures old(TicketsOk()) && msg.buf !in old(Buffers()) && NewEntryOk(old(log), old(origins), msg, first) ==>
        TicketsOk()
    {
      hide LogOk, OriginsOk, LastLogin, PadTicket, DictOk, Put, UniqueKeys, SeparateBuffers;
      RegisteredOk(unackedDrw, msg, now);
      TicketsAfterSend(unackedDrw, origins, log, msg, now, first);
      var raw := BE16(msg.buf.data, 0);
      if raw == DRW && msg.buf.data[4] == COMMAND_TAG {
        var packetId := BE16(msg.buf.data, 6);
        unackedDrw := Put(unackedDrw, Pending(packetId, now, msg));
      }
      log := log + [EntryFor(origins, msg.buf, msg.buf.data, first)];
      origins := if first then origins[msg.buf := |old(log)|] else origins;
    }

    /** The waiting commands and the log fit together. */
    ghost predicate OriginsOk(u: seq<Pending<DV>>, origins: map<ByteBuffer, nat>, log: seq<LogEntry>)
      reads set i | 0 <= i < |u| :: u[i].data.buf
    {
      Distinct(origins, |log|) && forall i :: 0 <= i < |u| ==> HasOrigin(log, origins, u[i].data.buf)
    }

    /** What the log needs of a transmission of `msg`. */
    ghost predicate NewEntryOk(log: seq<LogEntry>, origins: map<ByteBuffer, nat>, msg: DV, first: bool)
      reads msg.buf
    {
      var d := msg.buf.data;
      if first then IsVideoCommand(d) ==> d[16..20] == PadTicket(LastLogin(log))
      else HasOrigin(log, origins, msg.buf)
    }

    lemma {:induction false} TicketsAfterSend(u: seq<Pending<DV>>, origins: map<ByteBuffer, nat>, log: seq<LogEntry>,
                                              msg: DV, now: real, first: bool)
      requires UniqueKeys(u) && DistinctData(u)
      requires forall i :: 0 <= i < |u| && u[i].data == msg && 8 <= |msg.buf.data| ==> u[i].key == IdOf(msg.buf.data)
      ensures var e := EntryFor(origins, msg.buf, msg.buf.data, first);
              var origins' := if first then origins[msg.buf := |log|] else origins;
              OriginsOk(u, origins, log) && LogOk(log) && NewEntryOk(log, origins, msg, first)
              && (forall i :: 0 <= i < |u| ==> u[i].data.buf != msg.buf)
              ==> LogOk(log + [e]) && LastLogin(log + [e]) == LastLogin(log)
                  && OriginsOk(Registered(u, msg, msg.buf.data, now), origins', log + [e])
    {
      if OriginsOk(u, origins, log) && LogOk(log) && NewEntryOk(log, origins, msg, first)
         && forall i :: 0 <= i < |u| ==> u[i].data.buf != msg.buf {
        var e := EntryFor(origins, msg.buf, msg.buf.data, first);
        var origins' := if first then origins[msg.buf := |log|] else origins;
        assert (log + [e])[..|log|] == log;
        LogOkMore(log, e);
        OriginsAfterSend(u, origins, log, msg, e, origins');
        if IsCommand(msg.buf.data) {
          ChannelRuns.PutKeeps(u, Pending(IdOf(msg.buf.data), now, msg));
        }
      }
    }

    /** The waiting commands keep their first transmissions; `msg` has its own. */
    lemma {:induction false} OriginsAfterSend(u: seq<Pending<DV>>, origins: map<ByteBuffer, nat>, log: seq<LogEntry>,
                                              msg: DV, e: LogEntry, origins': map<ByteBuffer, nat>)
      requires OriginsOk(u, origins, log)
      requires forall i :: 0 <= i < |u| ==> u[i].data.buf != msg.buf
      requires || (e == Sent(msg.buf.data) && origins' == origins[msg.buf := |log|])
               || (origins' == origins && HasOrigin(log, origins, msg.buf))
      ensures OriginsOk(u, origins', log + [e]) && HasOrigin(log + [e], origins', msg.buf)
    {
      forall i | 0 <= i < |u|
        ensures HasOrigin(log + [e], origins', u[i].data.buf)
      {
        assert HasOrigin(log, origins, u[i].data.buf);
      }
    }

    /** What the session timer looks at. */
    function LiveState(): Liveness.Live
      reads `connected, `started, `lastReceivedPacket
    {
      Liveness.Live(connected, started, lastReceivedPacket)
    }

    /** The session's own "disconnect" listener. */
    method OnDisconnect()
      modifies this`connected, this`dstIp, this`timersRunning, this`transportOpen
      ensures !connected
      ensures old(connected) ==> dstIp == "0.0.0.0" && !timersRunning && !transportOpen
      ensures !old(connected) ==>
        dstIp == old(dstIp) && timersRunning == old(timersRunning) && transportOpen == old(transportOpen)
    {
      if !connected {
        return;
      }
      dstIp := "0.0.0.0";
      connected := false;
      timersRunning := false;
      transportOpen := false;
    }

    /** `emit("disconnect")`: the listeners registered by now run once each, in order. */
    method EmitDisconnect()
      modifies this`connected, this`dstIp, this`timersRunning, this`transportOpen, devices`sessions
      ensures connected == (old(connected) && OwnDisconnect !in disconnectListeners)
      ensures devices.sessions == old(devices.sessions) - Dropped(disconnectListeners)
    {
      var listeners := disconnectListeners;
      for i := 0 to |listeners|
        invariant connected == (old(connected) && OwnDisconnect !in listeners[..i])
        invariant devices.sessions == old(devices.sessions) - Dropped(listeners[..i])
      {
        assert listeners[..i + 1][..i] == listeners[..i];
        match listeners[i]
        case OwnDisconnect => OnDisconnect();
        case DropDevice(devId) => devices.sessions := devices.sessions - {devId};
      }
      assert listeners[..|listeners|] == listeners;
    }

    /** `unacked_drw.pop(key, None)` */
    method Drop(key: nat)
      requires Valid()
      modifies this`unackedDrw
      ensures Valid() && Chan() == Ack(old(Chan()), key)
      ensures Buffers() <= old(Buffers())
      ensures old(TicketsOk()) ==> TicketsOk()
    {
      ChannelRuns.PopKeeps(unackedDrw, key);
      ChannelRuns.PopElements(unackedDrw, key);
      unackedDrw := Pop(unackedDrw, key);
    }

    method AckDrw(id: nat)
      requires Valid()
      modifies this`unackedDrw, this`steps
      ensures Valid() && Chan() == Ack(old(Chan()), id)
      ensures steps == old(steps) + [ChannelRuns.AckStep(id)]
      ensures Buffers() <= old(Buffers())
      ensures old(TicketsOk()) ==> TicketsOk()
      ensures old(Recorded()) ==> Recorded()
    {
      if Recorded() {
        SessionChannel.OtherStepKeepsSessionRun(steps, ChannelRuns.AckStep(id));
      }
      Drop(id);
      steps := steps + [ChannelRuns.AckStep(id)];
    }

    /** Renumber one aged command in its own buffer, re-key it and send it again.  (The old
        key is dropped before the new id is written; nothing looks at either in between.) */
    method Renumber(e: Pending<DV>, ts: real)
      requires Valid() && e.data.offset == 0 && IsCommand(e.data.buf.data)
      requires forall k :: 0 <= k < |Pop(unackedDrw, e.key)| ==> Pop(unackedDrw, e.key)[k].data.buf != e.data.buf
      modifies this`unackedDrw, this`outgoingCommandId, this`log, this`origins, e.data.buf
      ensures Valid() && Chan() == Resend(old(Chan()), e, ts)
      ensures SameButId(old(e.data.buf.data), e.data.buf.data)
      ensures IdOf(e.data.buf.data) == old(outgoingCommandId) % 0x1_0000
      ensures Buffers() <= old(Buffers()) + {e.data.buf}
      ensures log == old(log) + [Resent(OriginOf(origins, e.data.buf), e.data.buf.data)] && origins == old(origins)
      ensures old(TicketsOk() && HasOrigin(log, origins, e.data.buf)) ==> TicketsOk()
    {
      hide Valid, TicketsOk, LogOk, LastLogin, Distinct;
      ghost var was := e.data.buf.data;
      Drop(e.key);
      assert e.data.buf !in Buffers();
      NewIdOnly(was, outgoingCommandId);
      e.data.Add(6).WriteU16(outgoingCommandId);
      outgoingCommandId := outgoingCommandId + 1;
      Send(e.data, ts, false);
    }

    lemma {:induction false} NewIdOnly(was: Chunk, id: nat)
      requires IsCommand(was)
      ensures var d := was[6 := id / 0x100 % 0x100][7 := id % 0x100];
              SameButId(was, d) && IsCommand(d) && Sendable(d) && IdOf(d) == id % 0x1_0000
    {
      U16Value(id);
    }

    /** At its turn, entry `i` of the snapshot is the only one that can have its buffer,
        and only under its old key. */
    lemma {:induction false} TurnOfEntry(c: Chan<DV>, now: real, clock: nat -> real, i: nat)
      requires Valid() && WellFormed(c) && i < |c.unacked| && c.unacked[i].data.offset == 0
      requires Chan() == TickUpTo(c, now, clock, i)
      ensures forall k :: 0 <= k < |Pop(unackedDrw, c.unacked[i].key)| ==>
        Pop(unackedDrw, c.unacked[i].key)[k].data.buf != c.unacked[i].data.buf
    {
      ChannelRuns.TickMidRound(c, now, clock, i);
      ChannelRuns.PoppedLacks(c, Chan(), i);
      ChannelRuns.PopKeeps(unackedDrw, c.unacked[i].key);
      forall k | 0 <= k < |Pop(unackedDrw, c.unacked[i].key)|
        ensures Pop(unackedDrw, c.unacked[i].key)[k].data.offset == 0
      {
        assert Pop(unackedDrw, c.unacked[i].key)[k] in unackedDrw;
      }
    }

    /** The turn of entry `i` of the snapshot: nothing, or renumbered and sent again. */
    method Turn(ghost c: Chan<DV>, e: Pending<DV>, now: real, clock: nat -> real, i: nat)
      requires Valid() && WellFormed(c) && i < |c.unacked| && e == c.unacked[i]
      requires e.data.offset == 0 && IsCommand(e.data.buf.data)
      requires Chan() == TickUpTo(c, now, clock, i)
      requires outgoingCommandId == c.nextId + AgedCount(c.unacked[..i], now)
      modifies this`unackedDrw, this`outgoingCommandId, this`log, this`origins, e.data.buf
      ensures Valid() && Chan() == TickUpTo(c, now, clock, i + 1)
      ensures outgoingCommandId == c.nextId + AgedCount(c.unacked[..i + 1], now)
      ensures Buffers() <= old(Buffers()) + {e.data.buf}
      ensures EntryDone(c, now, i, old(e.data.buf.data), e.data.buf.data)
      ensures origins == old(origins)
      ensures log == old(log) + if Aged(e, now) then [Resent(OriginOf(origins, e.data.buf), e.data.buf.data)] else []
      ensures old(TicketsOk() && HasOrigin(log, origins, e.data.buf)) ==> TicketsOk()
    {
      hide TicketsOk;
      assert c.unacked[..i + 1][..i] == c.unacked[..i];
      if now - e.sentTs > RESEND_AFTER_MS {
        TurnOfEntry(c, now, clock, i);
        NewIdValue(c, now, i, outgoingCommandId);
        Renumber(e, clock(i));
      }
    }

    /** The same, seen from the round: entries before `i` are done, the others untouched. */
    method TurnInRound(ghost c: Chan<DV>, e: Pending<DV>, now: real, clock: nat -> real, i: nat,
                       ghost was: seq<Chunk>, ghost start: seq<LogEntry>)
      requires Valid() && SnapshotOk(c.unacked, was) && RoundUpTo(c, now, was, i)
      requires i < |c.unacked| && e == c.unacked[i]
      requires Chan() == TickUpTo(c, now, clock, i)
      requires outgoingCommandId == c.nextId + AgedCount(c.unacked[..i], now)
      modifies this`unackedDrw, this`outgoingCommandId, this`log, this`origins, e.data.buf
      ensures Valid() && Chan() == TickUpTo(c, now, clock, i + 1)
      ensures outgoingCommandId == c.nextId + AgedCount(c.unacked[..i + 1], now)
      ensures Buffers() <= old(Buffers()) + {e.data.buf}
      ensures RoundUpTo(c, now, was, i + 1)
      ensures old(log) <= log && origins == old(origins)
      ensures old(log) == start + RoundLog(c, now, origins, old(Contents(c.unacked)), i) ==>
        log == start + RoundLog(c, now, origins, Contents(c.unacked), i + 1)
      ensures old(TicketsOk() && HasOrigin(log, origins, e.data.buf)) ==> TicketsOk()
    {
      hide Valid, TicketsOk, HasOrigin, EntryDone, IsCommand, UniqueKeys, AgedCount, TickUpTo;
      assert forall j :: 0 <= j < |c.unacked| && j != i ==> c.unacked[j].data.buf != e.data.buf;
      ghost var held := Contents(c.unacked);
      Turn(c, e, now, clock, i);
      RoundLogStays(c, now, origins, held, Contents(c.unacked), i);
    }

    /** The body of a round: every entry of a snapshot of the dictionary has its turn. */
    method ResendAged(now: real, clock: nat -> real)
      requires Valid()
      modifies this`unackedDrw, this`outgoingCommandId, this`log, this`origins, Buffers()
      ensures Valid() && Chan() == Tick(old(Chan()), now, clock) && origins == old(origins)
      ensures Buffers() <= old(Buffers())
      ensures RoundUpTo(old(Chan()), now, old(Contents(unackedDrw)), |old(unackedDrw)|)
      ensures log == old(log) + RoundLog(old(Chan()), now, origins, Contents(old(unackedDrw)), |old(unackedDrw)|)
      ensures old(TicketsOk()) ==> TicketsOk()
    {
      hide Valid, TicketsOk, SnapshotOk, RoundUpTo, EntryDone, HasOrigin;
      ghost var c := Chan();
      var snapshot := unackedDrw;
      ghost var was := Contents(snapshot);
      ghost var ticketsOk := TicketsOk();
      RoundStarts(c, now, was);
      assert snapshot[..0] == [];
      for i := 0 to |snapshot|
        invariant Valid() && Chan() == TickUpTo(c, now, clock, i)
        invariant outgoingCommandId == c.nextId + AgedCount(snapshot[..i], now)
        invariant Buffers() <= old(Buffers()) && origins == old(origins)
        invariant RoundUpTo(c, now, was, i)
        invariant old(log) <= log && log == old(log) + RoundLog(c, now, origins, Contents(snapshot), i)
        invariant ticketsOk ==> TicketsOk()
      {
        assert snapshot[i].data.buf in old(Buffers());
        OriginStays(old(log), was, c, now, i);
        TurnInRound(c, snapshot[i], now, clock, i, was, old(log));
      }
    }

    /** One round of the resend timer.  `clock(i)` is the time read while sending entry `i`
        again.  Whatever ids clash, every entry left is keyed by the id in its own buffer;
        of the aged commands only bytes 6 and 7 change, and nothing of the others. */
    method ResendTick(now: real, clock: nat -> real)
      requires Valid()
      modifies this`unackedDrw, this`outgoingCommandId, this`log, this`origins, this`steps, Buffers()
      ensures Valid() && Chan() == Tick(old(Chan()), now, clock)
      ensures steps == old(steps) + [ChannelRuns.TickStep(now, clock)] && origins == old(origins)
      ensures Buffers() <= old(Buffers())
      ensures forall i :: 0 <= i < |old(unackedDrw)| ==>
        EntryDone(old(Chan()), now, i, old(Contents(unackedDrw))[i], old(unackedDrw)[i].data.buf.data)
      ensures log == old(log) + RoundLog(old(Chan()), now, origins, Contents(old(unackedDrw)), |old(unackedDrw)|)
      ensures old(TicketsOk()) ==> TicketsOk()
      ensures old(Recorded()) ==> Recorded()
    {
      hide Valid, TicketsOk, EntryDone, Tick, RoundLog, SessionChannel.SessionRun, SessionChannel.After;
      TickIsRecorded(now, clock);
      ResendAged(now, clock);
      RoundEnds(old(Chan()), now, old(Contents(unackedDrw)));
      steps := steps + [ChannelRuns.TickStep(now, clock)];
    }

    /** At the start of a round the log shows the first transmission of every entry. */
    ghost predicate SnapshotOrigins(u: seq<Pending<DV>>, was: seq<Chunk>, before: seq<LogEntry>)
      requires |was| == |u|
      reads `origins
    {
      forall i :: 0 <= i < |u| ==> u[i].data.buf in origins && FirstSentAs(before, origins[u[i].data.buf], was[i])
    }

    lemma {:induction false} RoundStarts(c: Chan<DV>, now: real, was: seq<Chunk>)
      requires Valid() && c == Chan() && was == Contents(c.unacked)
      ensures SnapshotOk(c.unacked, was) && RoundUpTo(c, now, was, 0)
      ensures TicketsOk() ==> SnapshotOrigins(c.unacked, was, log)
    {
    }

    lemma {:induction false} OriginStays(before: seq<LogEntry>, was: seq<Chunk>, c: Chan<DV>, now: real, i: nat)
      requires before <= log && RoundUpTo(c, now, was, i) && i < |c.unacked|
      ensures SnapshotOrigins(c.unacked, was, before) ==> HasOrigin(log, origins, c.unacked[i].data.buf)
    {
    }

    lemma {:induction false} TickIsRecorded(now: real, clock: nat -> real)
      ensures var more := steps + [ChannelRuns.TickStep(now, clock)];
              Recorded() ==> SessionChannel.SessionRun(more) && SessionChannel.After(more) == Tick(Chan(), now, clock)
    {
      if Recorded() {
        SessionChannel.OtherStepKeepsSessionRun(steps, ChannelRuns.TickStep(now, clock));
      }
    }

    lemma {:induction false} RoundEnds(c: Chan<DV>, now: real, was: seq<Chunk>)
      requires RoundUpTo(c, now, was, |c.unacked|)
      ensures forall i :: 0 <= i < |c.unacked| ==> EntryDone(c, now, i, was[i], c.unacked[i].data.buf.data)
    {
    }
  }
}
