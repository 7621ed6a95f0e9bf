/** cam_reverse/handlers.py: what a session does with each received datagram. */
module Handlers {
  import opened Bytes
  import opened DataView
  import opened Channel
  import opened RestartMarkers
  import opened FrameAssembler
  import opened Crypto
  import opened Sessions
  import opened Impl
  import opened ControlDecoding
  import opened Wifi
  import opened WifiSettings
  import opened Answers
  import ChannelRuns
  import SessionChannel
  import Discovery
  import Liveness

  // -- data: the frame assembler ---------------------------------------------------

  /** Emit the finished image, then start over.  A listener that raises is reached first,
      and leaves the old frame in place. */
  method StartNewFrame(s: Session, buf: Chunk, pktId: nat, raises: bool) returns (r: Result<()>)
    modifies s`curImage, s`rcvSeqId, s`frameIsBad, s`frameWasFixed, s`frames
    ensures var o := Deliver(old(s.Asm()), Event(Start(pktId, buf), raises), false);
            s.Asm() == o.asm && s.frames == old(s.frames) + o.emitted
    ensures r.Raise? <==> raises && Emits(old(s.Asm()), Start(pktId, buf))
  {
    if |s.curImage| > 0 && !s.frameIsBad {
      s.frames := s.frames + [s.curImage];
      if raises {
        return Raise(ListenerError);
      }
    }
    s.frameWasFixed := false;
    s.frameIsBad := false;
    s.curImage := [buf];
    s.rcvSeqId := pktId;
    return Ok(());
  }

  /** A continuation chunk: dropped as a retransmission, appended, or fitted in across a
      gap by cutting both sides at restart markers. */
  method Continue(s: Session, pktId: nat, data: Chunk, fix: bool)
    modifies s`curImage, s`rcvSeqId, s`frameIsBad, s`frameWasFixed
    ensures s.Asm() == Deliver(old(s.Asm()), Event(Continuation(pktId, data), false), fix).asm
  {
    hide MarkersBelow, IsMarker, Lists;
    if pktId <= s.rcvSeqId {
      return;
    }
    var b := data;
    if pktId > s.rcvSeqId + 1 {
      s.frameIsBad := true;
      if !fix {
        return;
      }
      if |s.curImage| <= 1 {
        return;
      }
      var n := |s.curImage| - 1;
      var lastFrameSlice := s.curImage[n];
      var markers := FindAllResetMarkers(lastFrameSlice);
      if markers == [] {
        return;
      }
      var lastResetMarker := markers[|markers| - 1];
      var firstMarkers := FindAllResetMarkers(b);
      if firstMarkers == [] {
        return;
      }
      var firstResetMarker := firstMarkers[0];
      assert CutLeft(lastFrameSlice) == lastFrameSlice[..lastResetMarker];
      assert CutRight(b) == b[firstResetMarker..];
      s.curImage := s.curImage[n := lastFrameSlice[..lastResetMarker]];
      b := b[firstResetMarker..];
      s.frameIsBad := false;
      s.frameWasFixed := true;
    }
    s.rcvSeqId := pktId;
    s.curImage := s.curImage + [b];
  }

  /** `_deal_with_data`: computes the assembler's transition for the datagram. */
  method DealWithData(s: Session, dv: DV, fix: bool, raises: bool) returns (r: Result<()>)
    requires dv.offset == 0
    modifies s`curImage, s`rcvSeqId, s`frameIsBad, s`frameWasFixed, s`frames
    ensures var i := Classify(dv.buf.data);
            var o := Deliver(old(s.Asm()), Event(i, raises), fix);
            s.Asm() == o.asm && s.frames == old(s.frames) + o.emitted
    ensures var i := Classify(dv.buf.data);
            r.Raise? <==> i.Malformed? || (raises && (i.Audio? || Emits(old(s.Asm()), i)))
  {
    var pktLen :- dv.Add(2).ReadU16();
    if pktLen < 12 {
      return Ok(());
    }
    var hdr := dv.Add(8).ReadByteArray(4);
    var pktId :- dv.Add(6).ReadU16();
    if hdr == FRAME_HEADER {
      var streamType :- dv.Add(12).ReadU8();
      if streamType == STREAM_TYPE_AUDIO {
        var audioLen :- dv.Add(24).ReadU16LE();
        return if raises then Raise(ListenerError) else Ok(());
      } else if streamType == STREAM_TYPE_JPEG {
        var toRead := (pktLen as int) - 4 - 32;
        if toRead > 0 {
          var data := dv.Add(40).ReadByteArray(toRead);
          r := StartNewFrame(s, data, pktId, raises);
          return r;
        }
      }
      return Ok(());
    }
    var data := dv.Add(8).ReadByteArray(pktLen - 4);
    if hdr == JPEG_HEADER {
      r := StartNewFrame(s, data, pktId, raises);
      return r;
    }
    Continue(s, pktId, data, fix);
    return Ok(());
  }

  /** The invariants of a session, kept by every step. */
  ghost predicate Good(s: Session)
    reads s`unackedDrw, s`ticket, s`disconnectListeners, s`log, s`origins, s`steps, s`outgoingCommandId, s.Buffers()
  {
    s.Valid() && s.TicketsOk() && s.Recorded()
  }

  // -- acknowledgements --------------------------------------------------------------

  method WriteAckHead(out: DV, stream: Byte)
    requires out.offset == 0 && out.buf.data == Zeros(32)
    modifies out.buf
    ensures out.buf.data == AckHead(stream) + Zeros(26)
  {
    assert [] + Zeros(32) == Zeros(32);
    AppendU16(out, [], DRW_ACK);
    ghost var done := [] + U16(DRW_ACK);
    AppendU16(out.Add(2), done, 6);
    done := done + U16(6);
    AppendTwoBytes(out.Add(4), done, 0xD2, stream);
  }

  method MakeDrwAck(dv: DV) returns (r: Result<DV>)
    requires dv.offset == 0
    ensures r.Ok? <==> 8 <= |dv.buf.data|
    ensures r.Ok? ==> fresh(r.value.buf) && r.value.offset == 0
    ensures r.Ok? ==> r.value.buf.data == AckPacket(BE16(dv.buf.data, 6), dv.buf.data[5])
  {
    hide AckHead, U16;
    var pktId :- dv.Add(6).ReadU16();
    var stream := dv.buf.data[5];
    var out := Alloc(32);
    WriteAckHead(out, stream);
    AppendU16(out.Add(6), AckHead(stream), 1);
    AppendU16(out.Add(8), AckHead(stream) + U16(1), pktId);
    return Ok(out);
  }

  function AckAll<H>(c: Chan<H>, ids: seq<nat>): Chan<H> {
    if ids == [] then c else Ack(AckAll(c, ids[..|ids| - 1]), ids[|ids| - 1])
  }

  /** What still waits: all but the commands with these keys. */
  lemma {:induction false} AckAllKeeps(c: Chan<DV>, ids: seq<nat>, e: Pending<DV>)
    requires WellFormed(c)
    ensures WellFormed(AckAll(c, ids))
    ensures e in AckAll(c, ids).unacked <==> e in c.unacked && e.key !in ids
  {
    if ids != [] {
      var n := |ids| - 1;
      AckAllKeeps(c, ids[..n], e);
      var u := AckAll(c, ids[..n]).unacked;
      ChannelRuns.PopKeeps(u, ids[n]);
      assert ids == ids[..n] + [ids[n]];
    }
  }

  /** After an ack a command waits if and only if it waited before and the ack does not hold
      its id. */
  lemma {:induction false} WaitsAfterAck(c: Chan<DV>, d: Chunk, e: Pending<DV>)
    requires WellFormed(c) && 8 <= |d|
    ensures e in AckAll(c, AckIds(d, AckCount(d))).unacked <==> e in c.unacked && !Acknowledges(d, e.key)
  {
    AckAllKeeps(c, AckIds(d, AckCount(d)), e);
    AckIdsAreAcknowledged(d, e.key);
  }

  lemma {:induction false} NoAckYet(c: Chan<DV>, d: Chunk)
    requires 8 <= |d|
    ensures AckAll(c, AckIds(d, 0)) == c && AckSteps(AckIds(d, 0)) == []
  {
  }

  lemma {:induction false} NextAck(c: Chan<DV>, d: Chunk, i: nat)
    requires 8 <= |d| && i < AckCount(d)
    ensures var ids, id := AckIds(d, i), BE16(d, 8 + i * 2);
            && AckAll(c, AckIds(d, i + 1)) == Ack(AckAll(c, ids), id)
            && AckSteps(AckIds(d, i + 1)) == AckSteps(ids) + [ChannelRuns.AckStep(id)]
  {
    assert AckIds(d, i + 1)[..i] == AckIds(d, i);
  }

  /** The loop over the ids. */
  method AckEach(s: Session, dv: DV) returns (r: Result<()>)
    requires Good(s) && dv.offset == 0
    modifies s`unackedDrw, s`steps
    ensures s.Buffers() <= old(s.Buffers()) && Good(s)
    ensures |dv.buf.data| < 8 ==> s.steps == old(s.steps) && s.Chan() == old(s.Chan())
    ensures |dv.buf.data| >= 8 ==>
      var ids := AckIds(dv.buf.data, AckCount(dv.buf.data));
      s.steps == old(s.steps) + AckSteps(ids) && s.Chan() == AckAll(old(s.Chan()), ids)
    ensures r.Ok? <==> 8 <= |dv.buf.data| && 8 + 2 * BE16(dv.buf.data, 6) <= |dv.buf.data|
  {
    hide LogOk, LastLogin, Sessions.Session.OriginsOk, SessionChannel.SessionRun, SessionChannel.After, AckAll;
    hide AckIds, AckSteps;
    var d := dv.buf.data;
    if 8 <= |d| {
      NoAckYet(s.Chan(), d);
    }
    var ackCount :- dv.Add(6).ReadU16();
    for i := 0 to ackCount
      invariant s.Buffers() <= old(s.Buffers()) && Good(s)
      invariant i <= AckCount(d) && s.Chan() == AckAll(old(s.Chan()), AckIds(d, i))
      invariant s.steps == old(s.steps) + AckSteps(AckIds(d, i))
    {
      var ackId := dv.Add(8 + i * 2).ReadU16();
      if ackId.Raise? {
        return Raise(ackId.error);
      }
      s.AckDrw(ackId.value);
      NextAck(old(s.Chan()), d, i);
    }
    return Ok(());
  }

  /** Every id that can be read is acknowledged, even if the datagram then turns out to be
      shorter than announced and the handler raises. */
  method HandleDrwAck(s: Session, dv: DV) returns (r: Result<()>)
    requires Good(s) && dv.offset == 0
    modifies s`unackedDrw, s`steps
    ensures s.Buffers() <= old(s.Buffers()) && Good(s)
    ensures |dv.buf.data| < 8 ==> s.steps == old(s.steps)
    ensures |dv.buf.data| >= 8 ==> s.steps == old(s.steps) + AckSteps(AckIds(dv.buf.data, AckCount(dv.buf.data)))
    ensures forall e :: e in s.unackedDrw <==>
      e in old(s.unackedDrw) && !(8 <= |dv.buf.data| && Acknowledges(dv.buf.data, e.key))
    ensures r.Ok? <==> 8 <= |dv.buf.data| && 8 + 2 * BE16(dv.buf.data, 6) <= |dv.buf.data|
  {
    hide Good, AckIds, AckCount, AckSteps, AckAll, Acknowledges;
    GoodIsWellFormed(s);
    ghost var c := s.Chan();
    r := AckEach(s, dv);
    if 8 <= |dv.buf.data| {
      forall e: Pending<DV>
        ensures e in s.unackedDrw <==> e in c.unacked && !Acknowledges(dv.buf.data, e.key)
      {
        WaitsAfterAck(c, dv.buf.data, e);
      }
    }
  }

  lemma {:induction false} GoodIsWellFormed(s: Session)
    requires Good(s)
    ensures WellFormed(s.Chan())
  {
  }

  // -- control ---------------------------------------------------------------------

  /** Send a command just built, under the id it was built with. */
  method SendBuilt(s: Session, ret: DV, ghost command: nat, ghost id: nat, ghost payload: Chunk, now: real)
    requires Good(s) && ret.offset == 0 && ret.buf !in s.Buffers()
    requires ret.buf.data == ControlPacket(command, id, s.ticket, payload)
    requires s.outgoingCommandId == id + 1 && s.steps != [] && s.steps[|s.steps| - 1].BuildStep?
    requires ChannelRuns.NeverSent(s.steps, ret)
    modifies s`unackedDrw, s`log, s`origins, s`steps
    ensures Good(s)
    ensures s.steps == old(s.steps) + [ChannelRuns.SendStep(ret, id % 0x1_0000, now)]
    ensures s.log == old(s.log) + [Sent(ControlPacket(command, id, s.ticket, payload))]
    ensures s.Buffers() <= old(s.Buffers()) + {ret.buf}
  {
    hide LogOk, LastLogin, PadTicket, OuterHeader, InnerHeader, SessionChannel.SessionRun, SessionChannel.After;
    hide DictOk, Sessions.Session.OriginsOk;
    ControlPacketFields(command, id, s.ticket, payload);
    SessionChannel.SendKeepsSessionRun(s.steps, id, ret, now);
    s.Send(ret, now, true);
    s.steps := s.steps + [ChannelRuns.SendStep(ret, id % 0x1_0000, now)];
  }

  /** Build a command and send it: from then on it waits for its ack. */
  method SendCommand(s: Session, command: nat, data: Option<DV>, now: real) returns (ret: DV)
    requires Good(s)
    modifies s`outgoingCommandId, s`unackedDrw, s`log, s`origins, s`steps
    ensures Good(s) && fresh(ret.buf) && s.Buffers() <= old(s.Buffers()) + {ret.buf}
    ensures var packet := ControlPacket(command, old(s.outgoingCommandId), s.ticket,
                                        Payload(if data.Some? then Some(data.value.ToBytes()) else None));
            Hold([ret], [packet]) && s.log == old(s.log) + [Sent(packet)]
    ensures s.steps == old(s.steps) + Issue([ret], old(s.outgoingCommandId), now)
    ensures s.outgoingCommandId == old(s.outgoingCommandId) + 1
  {
    hide ControlPacket, Payload, LogOk, LastLogin, SessionChannel.SessionRun, SessionChannel.After;
    ghost var payload := Payload(if data.Some? then Some(data.value.ToBytes()) else None);
    ret := MakeDataReadWrite(s, command, data);
    SendBuilt(s, ret, command, old(s.outgoingCommandId), payload, now);
    IssueOne(ret, old(s.outgoingCommandId), now);
  }

  lemma {:induction false} IssueOne(cmd: DV, id: nat, now: real)
    ensures Issue([cmd], id, now) == [ChannelRuns.BuildStep, ChannelRuns.SendStep(cmd, id % 0x1_0000, now)]
  {
    assert [cmd][..0] == [];
  }

  /** `start_video_stream`: resolution 2, then start. */
  method StartVideoStream(s: Session, now: real) returns (ghost cmds: seq<DV>)
    requires Good(s)
    modifies s`outgoingCommandId, s`unackedDrw, s`log, s`origins, s`steps
    ensures fresh(s.Buffers() - old(s.Buffers())) && Good(s)
    ensures var packets := LoginCommands(old(s.outgoingCommandId), s.ticket, StartStream);
            Hold(cmds, packets) && s.log == old(s.log) + AllSent(packets)
    ensures s.steps == old(s.steps) + Issue(cmds, old(s.outgoingCommandId), now)
  {
    hide ControlPacket, Payload, Good;
    var buf := new ByteBuffer(RESOLUTION_640x480);
    var resolution := DV(buf, 0);
    assert resolution.ToBytes() == RESOLUTION_640x480 && buf !in s.Buffers();
    var first := SendCommand(s, VIDEO_PARAM_SET, Some(resolution), now);
    var second := SendCommand(s, START_VIDEO, None, now);
    cmds := [first, second];
    IssueOne(second, old(s.outgoingCommandId) + 1, now);
    assert cmds[..1] == [first];
  }

  /** Taking over a ticket: packets already waiting or sent keep theirs. */
  method LogIn(s: Session, ticket: Chunk)
    requires Good(s) && |ticket| <= 4
    modifies s`ticket, s`log
    ensures Good(s) && s.ticket == ticket && s.log == old(s.log) + [Login(ticket)]
  {
    LogOkMore(s.log, Login(ticket));
    s.ticket := ticket;
    s.log := s.log + [Login(ticket)];
  }

  method HandleUserAck(s: Session, dv: DV, now: real, onLogin: OnLogin) returns (ghost cmds: seq<DV>)
    requires Good(s) && dv.offset == 0
    modifies s`ticket, s`outgoingCommandId, s`unackedDrw, s`log, s`origins, s`steps
    ensures fresh(s.Buffers() - old(s.Buffers())) && Good(s)
    ensures s.ticket == Slice(dv.buf.data, 0x18, 4)
    ensures var packets := LoginCommands(old(s.outgoingCommandId), s.ticket, onLogin);
            Hold(cmds, packets) && s.log == old(s.log) + [Login(s.ticket)] + AllSent(packets)
    ensures s.steps == old(s.steps) + Issue(cmds, old(s.outgoingCommandId), now)
  {
    hide ControlPacket, Payload, Good;
    var c := dv.Add(0x18).ReadByteArray(4);
    LogIn(s, c);
    match onLogin {
      case StartStream =>
        cmds := StartVideoStream(s, now);
      case ScanWifi =>
        var pkt := SendCommand(s, LIST_WIFI, None, now);
        cmds := [pkt];
    }
  }

  /** In-place decoding of a control payload. */
  method DecodeInPlace(dv: DV) returns (r: Result<nat>)
    requires dv.offset == 0
    modifies dv.buf
    ensures r.Ok? <==> DecodeControl(old(dv.buf.data)).Ok?
    ensures r.Ok? ==> dv.buf.data == DecodeControl(old(dv.buf.data)).value
    ensures r.Ok? ==> r.value == PayloadLen(old(dv.buf.data))
  {
    var startType :- dv.Add(8).ReadU16();
    var cmdId :- dv.Add(10).ReadU16();
    var payloadLen :- dv.Add(0xC).ReadU16LE();
    if dv.ByteLength() > 20 && payloadLen > dv.ByteLength() {
      payloadLen := dv.ByteLength() - 20;
    }
    if startType != START_CMD {
      return Ok(payloadLen);
    }
    if payloadLen > ROTATE {
      var _ :- XqBytesDec(dv.Add(20), payloadLen - 4, ROTATE);
    }
    return Ok(payloadLen);
  }

  /** `create_response_for_control_command`, with the sending of the packets it returns. */
  method HandleControl(s: Session, dv: DV, now: real, raises: bool, onLogin: OnLogin)
    returns (r: Result<()>, ghost cmds: seq<DV>)
    requires Good(s) && dv.offset == 0 && dv.buf !in s.Buffers()
    modifies s`ticket, s`outgoingCommandId, s`unackedDrw, s`log, s`origins, s`steps, dv.buf
    ensures fresh(s.Buffers() - old(s.Buffers())) && Good(s)
    ensures r.Raise? <==> ControlRaises(old(dv.buf.data), raises)
    ensures s.ticket == if IsUserAck(old(dv.buf.data)) then TicketIn(old(dv.buf.data)) else old(s.ticket)
    ensures s.log == old(s.log) + ControlLog(old(dv.buf.data), old(s.outgoingCommandId), old(s.ticket), onLogin)
    ensures Hold(cmds, ControlCommands(old(dv.buf.data), old(s.outgoingCommandId), old(s.ticket), onLogin))
    ensures s.steps == old(s.steps) + Issue(cmds, old(s.outgoingCommandId), now)
  {
    hide Good, ControlLog, ControlCommands;
    ghost var d := dv.buf.data;
    Unanswered(d, s.outgoingCommandId, s.ticket, onLogin);
    cmds := [];
    var payloadLen :- DecodeInPlace(dv);
    HeaderSurvives(d);
    if BE16(dv.buf.data, 8) != START_CMD {
      return Ok(()), cmds;
    }
    r, cmds := AnswerControl(s, dv, d, payloadLen, now, raises, onLogin);
  }

  /** Acting on a decoded control datagram, `d` being what it was before decoding. */
  method AnswerControl(s: Session, dv: DV, ghost d: Chunk, payloadLen: nat, now: real, raises: bool, onLogin: OnLogin)
    returns (r: Result<()>, ghost cmds: seq<DV>)
    requires Good(s) && dv.offset == 0 && dv.buf !in s.Buffers()
    requires DecodeControl(d) == Ok(dv.buf.data) && payloadLen == PayloadLen(d)
    requires BE16(d, 8) == START_CMD && 12 <= |dv.buf.data| && BE16(dv.buf.data, 10) == BE16(d, 10)
    modifies s`ticket, s`outgoingCommandId, s`unackedDrw, s`log, s`origins, s`steps
    ensures fresh(s.Buffers() - old(s.Buffers())) && Good(s)
    ensures r.Raise? <==> ControlRaises(d, raises)
    ensures s.ticket == if IsUserAck(d) then TicketIn(d) else old(s.ticket)
    ensures s.log == old(s.log) + ControlLog(d, old(s.outgoingCommandId), old(s.ticket), onLogin)
    ensures Hold(cmds, ControlCommands(d, old(s.outgoingCommandId), old(s.ticket), onLogin))
    ensures s.steps == old(s.steps) + Issue(cmds, old(s.outgoingCommandId), now)
  {
    hide ControlPacket, Payload, LoginCommands, DecodeControl;
    hide Good;
    cmds := [];
    r := Ok(());
    var cmdId := BE16(dv.buf.data, 10);
    if cmdId == CONNECT_USER_ACK {
      cmds := HandleUserAck(s, dv, now, onLogin);
    } else if cmdId == WIFI_SETTINGS_ACK {
      var settings :- ParseSettings(dv);
      var pkt := SendCommand(s, LIST_WIFI, None, now);
      cmds := [pkt];
    } else {
      r := ReadAnswer(dv, cmdId, payloadLen, raises);
    }
  }

  /** Answers that are only read, and handed to a listener if it is a listing. */
  method ReadAnswer(dv: DV, cmdId: nat, payloadLen: nat, raises: bool) returns (r: Result<()>)
    requires dv.offset == 0
    ensures r.Raise? <==>
      (cmdId == DEV_STATUS_ACK && |dv.buf.data| < 0x2C)
      || (cmdId == LIST_WIFI_ACK && payloadLen != 4 && (|dv.buf.data| < 20 || raises))
  {
    if cmdId == DEV_STATUS_ACK {
      var charging :- dv.Add(0x28).ReadU32LE();
      var power :- dv.Add(0x18).ReadU16LE();
      var dbm :- dv.Add(0x24).ReadU8();
      var swver :- dv.Add(0x14).ReadU32LE();
    } else if cmdId == LIST_WIFI_ACK && payloadLen != 4 {
      var items :- ParseListWifi(dv);
      return if raises then Raise(ListenerError) else Ok(());
    }
    return Ok(());
  }

  /** A datagram that does not decode, or has another start code, is not answered. */
  lemma {:induction false} Unanswered(d: Chunk, id: nat, ticket: Chunk, onLogin: OnLogin)
    ensures (DecodeControl(d).Raise? || |d| < 14 || BE16(d, 8) != START_CMD) ==>
      ControlCommands(d, id, ticket, onLogin) == [] && ControlLog(d, id, ticket, onLogin) == []
  {
  }

  /** Decoding starts at byte 20, behind the header. */
  lemma {:induction false} HeaderSurvives(d: Chunk)
    requires DecodeControl(d).Ok?
    ensures var r := DecodeControl(d).value; |r| >= 14 && BE16(r, 8) == BE16(d, 8) && BE16(r, 10) == BE16(d, 10)
  {
  }

  // -- dispatch --------------------------------------------------------------------

  /** Send a datagram that is no Drw packet, and so is not remembered. */
  method SendPlain(s: Session, msg: DV, now: real)
    requires msg.buf !in s.Buffers() && Good(s)
    requires msg.offset == 0 && 2 <= |msg.buf.data| && !Is(msg.buf.data, DRW)
    modifies s`unackedDrw, s`log, s`origins
    ensures s.unackedDrw == old(s.unackedDrw) && s.Buffers() == old(s.Buffers()) && Good(s)
    ensures s.log == old(s.log) + [Sent(msg.buf.data)]
  {
    hide LogOk, LastLogin, Sessions.Session.OriginsOk, SessionChannel.SessionRun, SessionChannel.After;
    s.Send(msg, now, true);
  }

  method SendAck(s: Session, dv: DV, now: real) returns (r: Result<()>)
    requires Good(s) && dv.offset == 0
    modifies s`unackedDrw, s`log, s`origins
    ensures s.unackedDrw == old(s.unackedDrw) && s.Buffers() == old(s.Buffers()) && Good(s)
    ensures r.Ok? <==> 8 <= |dv.buf.data|
    ensures s.log == old(s.log) + if r.Ok? then [Sent(AckPacket(BE16(dv.buf.data, 6), dv.buf.data[5]))] else []
  {
    hide Good;
    var ack :- MakeDrwAck(dv);
    AckIsNoCommand(BE16(dv.buf.data, 6), dv.buf.data[5]);
    SendPlain(s, ack, now);
    return Ok(());
  }

  lemma {:induction false} AckIsNoCommand(id: nat, stream: Byte)
    ensures BE16(AckPacket(id, stream), 0) == DRW_ACK
  {
    assert AckPacket(id, stream)[0..2] == U16(DRW_ACK);
    ReadU16Field(AckPacket(id, stream), 0, DRW_ACK);
  }

  method HandleDrw(s: Session, dv: DV, now: real, fix: bool, raises: bool, onLogin: OnLogin)
    returns (r: Result<()>, ghost cmds: seq<DV>)
    requires Good(s) && dv.offset == 0 && dv.buf !in s.Buffers() && Is(dv.buf.data, DRW)
    modifies s`ticket, s`outgoingCommandId, s`unackedDrw, s`log, s`origins, s`steps, dv.buf
    modifies s`curImage, s`rcvSeqId, s`frameIsBad, s`frameWasFixed, s`frames
    ensures fresh(s.Buffers() - old(s.Buffers())) && Good(s)
    ensures r.Raise? <==> Raises(old(dv.buf.data), old(s.Asm()), raises)
    ensures AssemblerDid(s, old(dv.buf.data), raises, fix, old(s.Asm()), old(s.frames))
    ensures s.ticket == TicketAfter(old(dv.buf.data), old(s.ticket))
    ensures s.log == old(s.log) + Transcript(old(dv.buf.data), old(s.outgoingCommandId), old(s.ticket), onLogin)
    ensures Hold(cmds, Commands(old(dv.buf.data), old(s.outgoingCommandId), old(s.ticket), onLogin))
    ensures s.steps == old(s.steps) + Issue(cmds, old(s.outgoingCommandId), now)
  {
    hide Good, Classify, Deliver, AckPacket, ControlCommands, ControlLog, ControlRaises, IsUserAck;
    cmds := [];
    var _ :- SendAck(s, dv, now);
    var stream := dv.buf.data[5];
    if stream == 1 {
      r := DealWithData(s, dv, fix, raises);
    } else if stream == 0 {
      r, cmds := HandleControl(s, dv, now, raises, onLogin);
    } else {
      r := Ok(());
    }
  }

  /** The frame assembler took its step if the datagram carries data, and none otherwise. */
  ghost predicate AssemblerDid(s: Session, msg: Chunk, raises: bool, fix: bool, before: Asm, emitted: seq<Image>)
    reads s`curImage, s`rcvSeqId, s`frameIsBad, s`frameWasFixed, s`frames
  {
    if IsData(msg) then
      var o := Deliver(before, Event(Classify(msg), raises), fix);
      s.Asm() == o.asm && s.frames == emitted + o.emitted
    else s.Asm() == before && s.frames == emitted
  }

  lemma {:induction false} OwnListens(s: Session)
    requires Good(s)
    ensures OwnDisconnect in s.disconnectListeners
  {
  }

  /** `close`, with all listeners for the end of the session. */
  method HandleClose(s: Session, dv: DV, now: real) returns (r: Result<()>)
    requires Good(s) && dv.offset == 0
    modifies s`unackedDrw, s`log, s`origins, s`connected, s`dstIp, s`timersRunning, s`transportOpen
    modifies s.devices`sessions
    ensures s.unackedDrw == old(s.unackedDrw) && s.Buffers() == old(s.Buffers()) && Good(s)
    ensures r.Ok? <==> 8 <= |dv.buf.data|
    ensures s.log == old(s.log) + if r.Ok? then [Sent(AckPacket(BE16(dv.buf.data, 6), dv.buf.data[5]))] else []
    ensures s.connected == (old(s.connected) && r.Raise?)
    ensures s.devices.sessions == old(s.devices.sessions) - if r.Ok? then Dropped(s.disconnectListeners) else {}
  {
    hide Good;
    OwnListens(s);
    var _ :- SendAck(s, dv, now);
    s.EmitDisconnect();
    return Ok(());
  }

  /** The user check that answers a P2pRdy. */
  method HandleP2pRdy(s: Session, now: real) returns (ghost cmds: seq<DV>)
    requires Good(s)
    modifies s`outgoingCommandId, s`unackedDrw, s`log, s`origins, s`steps
    ensures fresh(s.Buffers() - old(s.Buffers())) && Good(s)
    ensures var packet := UserCheck(old(s.outgoingCommandId), s.ticket);
            Hold(cmds, [packet]) && s.log == old(s.log) + [Sent(packet)]
    ensures s.steps == old(s.steps) + Issue(cmds, old(s.outgoingCommandId), now)
  {
    hide ControlPacket, Payload, UserCheckData, LogOk, LastLogin;
    var pkt := SendUsrChk(s, ADMIN, ADMIN);
    SendBuilt(s, pkt, CONNECT_USER, old(s.outgoingCommandId), Payload(Some(UserCheckData(ADMIN, ADMIN))), now);
    IssueOne(pkt, old(s.outgoingCommandId), now);
    cmds := [pkt];
  }

  lemma {:induction false} KeepaliveIsNoCommand(command: nat)
    requires command < 0x1_0000
    ensures |Keepalive(command)| == 4 && BE16(Keepalive(command), 0) == command
  {
    assert Keepalive(command)[0..2] == U16(command);
    ReadU16Field(Keepalive(command), 0, command);
    FitsU16(command);
  }

  /** A four-byte keepalive, or its acknowledgement. */
  method SendKeepalive(s: Session, command: nat, now: real)
    requires Good(s) && (command == P2P_ALIVE || command == P2P_ALIVE_ACK)
    modifies s`unackedDrw, s`log, s`origins
    ensures s.unackedDrw == old(s.unackedDrw) && s.Buffers() == old(s.Buffers()) && Good(s)
    ensures s.log == old(s.log) + [Sent(Keepalive(command))]
  {
    hide Good;
    var out := Alloc(4);
    out.WriteU16(command);
    out.Add(2).WriteU16(0);
    assert out.buf.data == Keepalive(command);
    KeepaliveIsNoCommand(command);
    SendPlain(s, out, now);
  }

  /** The handler table. */
  method Dispatch(s: Session, dv: DV, raw: nat, now: real, fix: bool, raises: bool, onLogin: OnLogin)
    returns (r: Result<()>, ghost cmds: seq<DV>)
    requires Good(s) && dv.offset == 0 && dv.buf !in s.Buffers() && Is(dv.buf.data, raw)
    modifies s`ticket, s`outgoingCommandId, s`unackedDrw, s`log, s`origins, s`steps, dv.buf
    modifies s`connected, s`dstIp, s`timersRunning, s`transportOpen, s.devices`sessions
    modifies s`curImage, s`rcvSeqId, s`frameIsBad, s`frameWasFixed, s`frames
    ensures fresh(s.Buffers() - old(s.Buffers())) && Good(s)
    ensures r.Raise? <==> Raises(old(dv.buf.data), old(s.Asm()), raises)
    ensures s.connected == (old(s.connected) && !Closes(old(dv.buf.data)))
    ensures s.devices.sessions
            == old(s.devices.sessions) - if Closes(old(dv.buf.data)) then Dropped(s.disconnectListeners) else {}
    ensures AssemblerDid(s, old(dv.buf.data), raises, fix, old(s.Asm()), old(s.frames))
    ensures s.ticket == TicketAfter(old(dv.buf.data), old(s.ticket))
    ensures s.log == old(s.log) + Transcript(old(dv.buf.data), old(s.outgoingCommandId), old(s.ticket), onLogin)
    ensures Hold(cmds, Commands(old(dv.buf.data), old(s.outgoingCommandId), old(s.ticket), onLogin))
    ensures s.steps == old(s.steps) + ChannelSteps(old(dv.buf.data), cmds, old(s.outgoingCommandId), now)
  {
    hide Good, Classify, Deliver, AckPacket, ControlCommands, ControlLog, ControlRaises, IsUserAck;
    hide AckIds, AckSteps, AckCount, AckAll;
    r, cmds := Ok(()), [];
    if raw == P2P_ALIVE {
      SendKeepalive(s, P2P_ALIVE_ACK, now);
    } else if raw == Discovery.P2P_RDY {
      cmds := HandleP2pRdy(s, now);
    } else if raw == DRW_ACK {
      r := HandleDrwAck(s, dv);
    } else if raw == DRW {
      r, cmds := HandleDrw(s, dv, now, fix, raises, onLogin);
    } else if raw == CLOSE {
      r := HandleClose(s, dv, now);
    }
  }

  /** `_handle_incoming`: one received datagram.  Exceptions end its handling, not the session. */
  method HandleIncoming(s: Session, msg: Chunk, now: real, fix: bool, raises: bool, onLogin: OnLogin)
    returns (ok: bool, ghost cmds: seq<DV>)
    requires Good(s)
    modifies s, s.devices`sessions
    ensures fresh(s.Buffers() - old(s.Buffers())) && Good(s)
    ensures s.devices.sessions == old(s.devices.sessions) - if Closes(msg) then Dropped(s.disconnectListeners) else {}
    ensures ok <==> !Raises(msg, old(s.Asm()), raises)
    ensures s.LiveState()
            == Liveness.Next(old(s.LiveState()), Liveness.Received(IsAlive(msg), ok, Closes(msg), now), s.timeoutMs)
    ensures AssemblerDid(s, msg, raises, fix, old(s.Asm()), old(s.frames))
    ensures s.ticket == TicketAfter(msg, old(s.ticket))
    ensures s.log == old(s.log) + Transcript(msg, old(s.outgoingCommandId), old(s.ticket), onLogin)
    ensures Hold(cmds, Commands(msg, old(s.outgoingCommandId), old(s.ticket), onLogin))
    ensures var steps := ChannelSteps(msg, cmds, old(s.outgoingCommandId), now);
            s.steps == old(s.steps) + steps && s.Chan() == ChannelRuns.RunSteps(old(s.Chan()), steps)
    ensures s.disconnectListeners == old(s.disconnectListeners)
  {
    hide Good, Raises, Commands, Transcript, TicketAfter, ChannelSteps, AssemblerDid, Closes;
    RecordedRun(s);
    var buf := new ByteBuffer(msg);
    var dv := DV(buf, 0);
    assert buf !in s.Buffers();
    var raw := dv.ReadU16();
    if raw.Raise? {
      NothingDone(s, msg, s.outgoingCommandId, s.ticket, onLogin, raises, fix, now);
      return false, [];
    }
    var r;
    r, cmds := Dispatch(s, dv, raw.value, now, fix, raises, onLogin);
    RunGoesOn(s, old(s.steps), old(s.Chan()), ChannelSteps(msg, cmds, old(s.outgoingCommandId), now));
    if r.Raise? {
      return false, cmds;
    }
    if raw.value != P2P_ALIVE && raw.value != P2P_ALIVE_ACK {
      s.lastReceivedPacket := now;
    }
    return true, cmds;
  }

  /** A datagram without a command does nothing. */
  lemma {:induction false} NothingDone(s: Session, msg: Chunk, id: nat, ticket: Chunk, onLogin: OnLogin,
                                       raises: bool, fix: bool, now: real)
    requires |msg| < 2
    ensures Raises(msg, s.Asm(), raises) && AssemblerDid(s, msg, raises, fix, s.Asm(), s.frames) && !Closes(msg)
    ensures TicketAfter(msg, ticket) == ticket && Transcript(msg, id, ticket, onLogin) == []
    ensures Hold([], Commands(msg, id, ticket, onLogin)) && ChannelSteps(msg, [], id, now) == []
  {
  }

  lemma {:induction false} RecordedRun(s: Session)
    requires Good(s)
    ensures SessionChannel.After(s.steps) == s.Chan()
  {
  }

  /** The steps recorded are the steps that the channel took. */
  lemma {:induction false} RunGoesOn(s: Session, before: seq<ChannelRuns.Step<DV>>, chan: Chan<DV>,
                                     steps: seq<ChannelRuns.Step<DV>>)
    requires Good(s) && s.steps == before + steps && SessionChannel.After(before) == chan
    ensures s.Chan() == ChannelRuns.RunSteps(chan, steps)
  {
    SessionChannel.RunStepsConcat(SessionChannel.New(), before, steps);
  }

  /** One turn of the session timer. */
  method SessionTimerTick(s: Session, now: real)
    requires Good(s)
    modifies s`unackedDrw, s`log, s`origins, s`connected, s`dstIp, s`timersRunning, s`transportOpen
    modifies s.devices`sessions
    ensures s.unackedDrw == old(s.unackedDrw) && s.Buffers() == old(s.Buffers()) && Good(s)
    ensures s.LiveState() == Liveness.Next(old(s.LiveState()), Liveness.SessionTick(now), s.timeoutMs)
    ensures s.devices.sessions == old(s.devices.sessions)
      - if s.started && now - s.lastReceivedPacket > s.timeoutMs then Dropped(s.disconnectListeners) else {}
    ensures s.log == old(s.log)
      + if s.started && now - s.lastReceivedPacket > 600.0 then [Sent(Keepalive(P2P_ALIVE))] else []
  {
    hide Good;
    OwnListens(s);
    if !s.started {
      return;
    }
    var delta := now - s.lastReceivedPacket;
    if delta > 600.0 {
      SendKeepalive(s, P2P_ALIVE, now);
    }
    if delta > s.timeoutMs {
      s.EmitDisconnect();
    }
  }

  /** `connection_made`: the session answers the camera's PunchPkt and starts its timers. */
  method ConnectionMade(s: Session, dev: Discovery.DevSerial, now: real)
    requires Good(s) && IsLatin1(dev.prefix) && IsLatin1(dev.suffix)
    modifies s`unackedDrw, s`log, s`origins, s`started, s`timersRunning, s`transportOpen
    ensures s.unackedDrw == old(s.unackedDrw) && s.Buffers() == old(s.Buffers()) && Good(s)
    ensures s.LiveState() == Liveness.Next(old(s.LiveState()), Liveness.Started, s.timeoutMs)
    ensures s.timersRunning && s.transportOpen
    ensures s.log == old(s.log) + [Sent(Discovery.ReadyPacket(dev))]
  {
    hide Discovery.ReadyBody, Good;
    s.transportOpen := true;
    var ready := Discovery.MakeP2pRdy(dev);
    Discovery.ReadyIsNoCommand(dev);
    SendPlain(s, ready, now);
    s.started := true;
    s.timersRunning := true;
  }
}
