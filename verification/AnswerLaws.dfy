/** What the functions of `Answers` mean, told from the bytes of datagrams as the camera
    builds them: offsets, types and command numbers are those of the wire. */
module AnswerLaws {
  import opened Bytes
  import opened DataView
  import opened Crypto
  import opened FrameAssembler
  import opened DatagramKinds
  import opened Sessions
  import opened Impl
  import opened ControlDecoding
  import opened Answers
  import opened Channel
  import opened Handlers
  import AssemblerRoundTrip
  import ChannelRuns
  import SessionChannel
  import Discovery

  // -- kinds of datagrams ----------------------------------------------------------------

  /** The two bytes of the type. */
  predicate HasType(msg: Chunk, low: Byte) {
    2 <= |msg| && msg[0] == 0xF1 && msg[1] == low
  }

  lemma {:induction false} KindsByBytes(msg: Chunk)
    ensures IsAlive(msg) <==> HasType(msg, 0xE0) || HasType(msg, 0xE1)
    ensures Closes(msg) <==> 8 <= |msg| && HasType(msg, 0xF0)
    ensures IsData(msg) <==> 8 <= |msg| && HasType(msg, 0xD0) && msg[5] == 1
    ensures IsControl(msg) <==> 8 <= |msg| && HasType(msg, 0xD0) && msg[5] == 0
  {
    TypeBytes(msg);
  }

  lemma {:induction false} TypeBytes(msg: Chunk)
    ensures Is(msg, DRW) <==> HasType(msg, 0xD0)
    ensures Is(msg, DRW_ACK) <==> HasType(msg, 0xD1)
    ensures Is(msg, CLOSE) <==> HasType(msg, 0xF0)
    ensures Is(msg, P2P_ALIVE) <==> HasType(msg, 0xE0)
    ensures Is(msg, P2P_ALIVE_ACK) <==> HasType(msg, 0xE1)
    ensures Is(msg, Discovery.P2P_RDY) <==> HasType(msg, 0x42)
  {
  }

  // -- acks and keepalives ------------------------------------------------------------------

  /** Drw and Close datagrams are acknowledged before anything else is sent: the ack holds
      exactly their id, and their stream. */
  lemma {:induction false} AckedFirst(msg: Chunk, id: nat, ticket: Chunk, onLogin: OnLogin)
    requires 8 <= |msg| && (HasType(msg, 0xD0) || HasType(msg, 0xF0))
    ensures var log := Transcript(msg, id, ticket, onLogin);
            && log != [] && log[0].Sent?
            && log[0].datagram[..6] == [0xF1, 0xD1, 0x00, 0x06, 0xD2, msg[5]]
            && AckIds(log[0].datagram, AckCount(log[0].datagram)) == [BE16(msg, 6)]
  {
    TypeBytes(msg);
    AckAcknowledges(BE16(msg, 6), msg[5]);
  }

  /** A P2PAlive is answered with a P2PAliveAck, and with nothing else. */
  lemma {:induction false} AliveAnswered(msg: Chunk, id: nat, ticket: Chunk, onLogin: OnLogin)
    requires HasType(msg, 0xE0)
    ensures Transcript(msg, id, ticket, onLogin) == [Sent([0xF1, 0xE1, 0x00, 0x00])]
    ensures Commands(msg, id, ticket, onLogin) == []
  {
    TypeBytes(msg);
    assert Keepalive(P2P_ALIVE_ACK) == [0xF1, 0xE1, 0x00, 0x00];
  }

  /** Datagrams of any other type are neither answered nor do they raise. */
  lemma {:induction false} OtherTypes(msg: Chunk, id: nat, ticket: Chunk, onLogin: OnLogin, st: Asm, raises: bool)
    requires 2 <= |msg| && !HasType(msg, 0xD0) && !HasType(msg, 0xD1) && !HasType(msg, 0xF0) && !HasType(msg, 0xE0)
    requires !HasType(msg, 0x42)
    ensures Transcript(msg, id, ticket, onLogin) == [] && Commands(msg, id, ticket, onLogin) == []
    ensures TicketAfter(msg, ticket) == ticket && !Raises(msg, st, raises)
  {
    TypeBytes(msg);
  }

  // -- control commands ----------------------------------------------------------------------

  /** A packet as the camera builds it, which a session takes for a control datagram and
      decodes to its data. */
  lemma {:induction false} BuiltIsControl(command: nat, id: nat, ticket: Chunk, data: Chunk)
    requires command < 0x1_0000 && |ticket| == 4 && 4 < |data| && |data| + 16 < 0x1_0000
    ensures var p := ControlPacket(command, id, ticket, Payload(Some(data)));
            && |p| == 20 + |data| && IsControl(p) && IsCommand(p) && IdOf(p) == id % 0x1_0000
            && BE16(p, 8) == 0x110A && BE16(p, 10) == command && p[16..20] == ticket
            && DecodeControl(p) == Ok(p[..20] + data) && PayloadLen(p) == |data| + 4
  {
    ControlRoundTrip(command, id, ticket, data);
    ControlPacketFields(command, id, ticket, Payload(Some(data)));
    FitsU16(|data| + 4);
  }

  /** The same without data. */
  lemma {:induction false} BuiltWithoutData(command: nat, id: nat, ticket: Chunk)
    requires command < 0x1_0000 && |ticket| == 4
    ensures var p := ControlPacket(command, id, ticket, Payload(None));
            && |p| == 20 && IsControl(p) && IsCommand(p) && IdOf(p) == id % 0x1_0000
            && BE16(p, 8) == 0x110A && BE16(p, 10) == command && p[16..20] == ticket
  {
    ControlPacketFields(command, id, ticket, []);
    FitsU16(command);
  }

  /** A ConnectUserAck brings the four bytes behind the first four of its data as the ticket. */
  lemma {:induction false} LoginBringsTicket(id: nat, ticket: Chunk, data: Chunk)
    requires |ticket| == 4 && 8 <= |data| && |data| + 16 < 0x1_0000
    ensures var msg := ControlPacket(0x2011, id, ticket, Payload(Some(data)));
            IsLogin(msg) && TicketIn(msg) == data[4..8] && forall t :: TicketAfter(msg, t) == data[4..8]
  {
    BuiltIsControl(0x2011, id, ticket, data);
    var msg := ControlPacket(0x2011, id, ticket, Payload(Some(data)));
    assert (msg[..20] + data)[24..28] == data[4..8];
  }

  /** The stream is started with the resolution first, then the start, under the next two ids
      and with the ticket; both are video commands. */
  lemma {:induction false} StreamIsStarted(id: nat, ticket: Chunk)
    requires |ticket| == 4
    ensures var cmds := LoginCommands(id, ticket, StartStream);
            && |cmds| == 2
            && BE16(cmds[0], 10) == 0x1830 && IdOf(cmds[0]) == id % 0x1_0000 && cmds[0][16..20] == ticket
            && DecodeControl(cmds[0]) == Ok(cmds[0][..20] + [1, 0, 0, 0, 2, 0, 0, 0])
            && BE16(cmds[1], 10) == 0x1030 && IdOf(cmds[1]) == (id + 1) % 0x1_0000 && cmds[1][16..20] == ticket
            && |cmds[1]| == 20
            && IsVideoCommand(cmds[0]) && IsVideoCommand(cmds[1])
  {
    BuiltIsControl(VIDEO_PARAM_SET, id, ticket, RESOLUTION_640x480);
    BuiltWithoutData(START_VIDEO, id + 1, ticket);
  }

  /** Pairing asks for the Wi-Fi networks. */
  lemma {:induction false} WifiIsScanned(id: nat, ticket: Chunk)
    requires |ticket| == 4
    ensures var cmds := LoginCommands(id, ticket, ScanWifi);
            && |cmds| == 1 && |cmds[0]| == 20
            && BE16(cmds[0], 10) == 0x0360 && IdOf(cmds[0]) == id % 0x1_0000 && cmds[0][16..20] == ticket
  {
    BuiltWithoutData(LIST_WIFI, id, ticket);
  }

  /** A login is answered with what its listener sends, under the ticket just received; Wi-Fi
      settings with a scan, if they can be read; other commands with nothing, and they bring
      no ticket. */
  lemma {:induction false} ControlAnswered(command: nat, id0: nat, ticket0: Chunk, data: Chunk,
                                           id: nat, ticket: Chunk, onLogin: OnLogin)
    requires command < 0x1_0000 && |ticket0| == 4 && 8 <= |data| && |data| + 16 < 0x1_0000
    ensures var msg := ControlPacket(command, id0, ticket0, Payload(Some(data)));
            && Commands(msg, id, ticket, onLogin)
               == (if command == 0x2011 then LoginCommands(id, data[4..8], onLogin)
                   else if command == 0x0261 && 24 <= |data| then LoginCommands(id, ticket, ScanWifi)
                   else [])
            && TicketAfter(msg, ticket) == if command == 0x2011 then data[4..8] else ticket
  {
    BuiltIsControl(command, id0, ticket0, data);
    var msg := ControlPacket(command, id0, ticket0, Payload(Some(data)));
    TypeBytes(msg);
    if command == 0x2011 {
      LoginBringsTicket(id0, ticket0, data);
    }
  }

  /** A P2pRdy is answered with the user check for account and password "admin", each in its
      field. */
  lemma {:induction false} ReadyAnswered(msg: Chunk, id: nat, ticket: Chunk, onLogin: OnLogin)
    requires HasType(msg, 0x42) && |ticket| == 4
    ensures var cmds, admin := Commands(msg, id, ticket, onLogin), [0x61, 0x64, 0x6D, 0x69, 0x6E];
            && |cmds| == 1 && Transcript(msg, id, ticket, onLogin) == [Sent(cmds[0])]
            && BE16(cmds[0], 10) == 0x2010 && IdOf(cmds[0]) == id % 0x1_0000 && cmds[0][16..20] == ticket
            && DecodeControl(cmds[0]) == Ok(cmds[0][..20] + admin + Zeros(27) + admin + Zeros(123))
  {
    TypeBytes(msg);
    AdminCheck(id, ticket);
  }

  lemma {:induction false} AdminCheck(id: nat, ticket: Chunk)
    requires |ticket| == 4
    ensures var p, admin := UserCheck(id, ticket), [0x61, 0x64, 0x6D, 0x69, 0x6E];
            && BE16(p, 10) == 0x2010 && IdOf(p) == id % 0x1_0000 && p[16..20] == ticket
            && |p| == 180 && DecodeControl(p) == Ok(p[..20] + admin + Zeros(27) + admin + Zeros(123))
  {
    hide DecodeControl, ControlPacket, Payload;
    var data := UserCheckData(ADMIN, ADMIN);
    UserCheckFields(ADMIN, ADMIN);
    BuiltIsControl(CONNECT_USER, id, ticket, data);
    assert UserCheck(id, ticket)[..20] + data == UserCheck(id, ticket)[..20] + ADMIN + Zeros(27) + ADMIN + Zeros(123);
  }

  /** Account and password in fields of 32 and 128 bytes. */
  lemma {:induction false} UserCheckFields(username: Chunk, password: Chunk)
    requires |username| <= 0x20 && |password| <= 0x80
    ensures UserCheckData(username, password)
            == username + Zeros(0x20 - |username|) + password + Zeros(0x80 - |password|)
  {
    var b := Splice(Zeros(0xA0), 0, username);
    assert b == username + Zeros(0x20 - |username|) + Zeros(0x80);
  }

  /** The destinations of the commands that are sent, and of all others. */
  lemma {:induction false} Destinations(command: nat)
    ensures CcDest(command) ==
      if command == 0x2010 then 0xFF00
      else if command in {0x0361, 0x2011, 0x0811} then 0xAA55
      else 0
  {
  }

  // -- the commands that wait ---------------------------------------------------------------

  lemma {:induction false} AckStepsRun(c: Chan<DV>, ids: seq<nat>)
    ensures ChannelRuns.RunSteps(c, AckSteps(ids)) == AckAll(c, ids)
  {
    if ids != [] {
      var n := |ids| - 1;
      AckStepsRun(c, ids[..n]);
      assert AckSteps(ids) == AckSteps(ids[..n]) + [ChannelRuns.AckStep(ids[n])];
      SessionChannel.RunStepsConcat(c, AckSteps(ids[..n]), [ChannelRuns.AckStep(ids[n])]);
      SessionChannel.OneStep(AckAll(c, ids[..n]), ChannelRuns.AckStep(ids[n]));
    }
  }

  /** After a DrwAck exactly those entries wait that waited before and whose ids cannot be read
      in it. */
  lemma {:induction false} AcksReachChannel(c: Chan<DV>, msg: Chunk, cmds: seq<DV>, now: real, e: Pending<DV>)
    requires WellFormed(c) && 8 <= |msg| && HasType(msg, 0xD1)
    ensures e in ChannelRuns.RunSteps(c, ChannelSteps(msg, cmds, c.nextId, now)).unacked
            <==> e in c.unacked && !Acknowledges(msg, e.key)
  {
    hide AckIds, AckCount, AckSteps, AckAll, Acknowledges;
    TypeBytes(msg);
    AckStepsRun(c, AckIds(msg, AckCount(msg)));
    WaitsAfterAck(c, msg, e);
  }

  predicate AllNew(c: Chan<DV>, cmds: seq<DV>) {
    && (forall i, k :: 0 <= i < |c.unacked| && 0 <= k < |cmds| ==> c.unacked[i].data != cmds[k])
    && forall i, k :: 0 <= i < k < |cmds| ==> cmds[i] != cmds[k]
  }

  /** The `k`-th of new commands, waiting since `now` under the `k`-th next id. */
  function NewEntry(c: Chan<DV>, cmds: seq<DV>, now: real, k: nat): Pending<DV>
    requires k < |cmds|
  {
    Pending((c.nextId + k) % 0x1_0000, now, cmds[k])
  }

  /** After the answers of any other datagram exactly these entries wait: the answers, under
      the next ids, and all that waited before under another id. */
  lemma {:induction false} AnswersWait(c: Chan<DV>, msg: Chunk, cmds: seq<DV>, now: real, e: Pending<DV>)
    requires WellFormed(c) && AllNew(c, cmds) && |cmds| <= 0x1_0000
    requires !(8 <= |msg| && HasType(msg, 0xD1))
    ensures var r := ChannelRuns.RunSteps(c, ChannelSteps(msg, cmds, c.nextId, now));
            && r.nextId == c.nextId + |cmds|
            && (e in r.unacked <==>
                (exists k :: 0 <= k < |cmds| && e == NewEntry(c, cmds, now, k))
                || (e in c.unacked && forall k :: 0 <= k < |cmds| ==> NewEntry(c, cmds, now, k).key != e.key))
  {
    TypeBytes(msg);
    IssuedWait(c, cmds, now);
    assert Issued(c, cmds, now, ChannelRuns.RunSteps(c, Issue(cmds, c.nextId, now)), e);
  }

  ghost predicate Issued(c: Chan<DV>, cmds: seq<DV>, now: real, r: Chan<DV>, e: Pending<DV>) {
    e in r.unacked <==>
      (exists k :: 0 <= k < |cmds| && e == NewEntry(c, cmds, now, k))
      || (e in c.unacked && forall k :: 0 <= k < |cmds| ==> NewEntry(c, cmds, now, k).key != e.key)
  }

  lemma {:induction false} BuildAndSend(c: Chan<DV>, data: DV, id: nat, now: real)
    ensures ChannelRuns.RunSteps(c, [ChannelRuns.BuildStep, ChannelRuns.SendStep(data, id, now)])
            == Chan(c.nextId + 1, Put(c.unacked, Pending(id, now, data)))
  {
    var build, send := ChannelRuns.BuildStep, ChannelRuns.SendStep(data, id, now);
    assert [build, send] == [build] + [send];
    SessionChannel.RunStepsConcat(c, [build], [send]);
    SessionChannel.OneStep(c, build);
    SessionChannel.OneStep(Build(c), send);
  }

  lemma {:induction false} IssuedMore(c: Chan<DV>, cmds: seq<DV>, now: real, before: Chan<DV>, r: Chan<DV>,
                                      e: Pending<DV>)
    requires cmds != [] && |cmds| <= 0x1_0000
    requires var n := |cmds| - 1;
             && Issued(c, cmds[..n], now, before, e)
             && (e in r.unacked <==>
                 e == NewEntry(c, cmds, now, n) || (e in before.unacked && e.key != NewEntry(c, cmds, now, n).key))
    ensures Issued(c, cmds, now, r, e)
  {
    var n := |cmds| - 1;
    assert forall k :: 0 <= k < n ==> NewEntry(c, cmds[..n], now, k) == NewEntry(c, cmds, now, k);
    assert forall k :: 0 <= k < n ==> NewEntry(c, cmds, now, k).key != NewEntry(c, cmds, now, n).key by {
      forall k | 0 <= k < n
        ensures NewEntry(c, cmds, now, k).key != NewEntry(c, cmds, now, n).key
      {
        NoSameId(c.nextId + k, n - k);
      }
    }
  }

  lemma {:induction false} NoSameId(id: nat, d: nat)
    requires 0 < d < 0x1_0000
    ensures id % 0x1_0000 != (id + d) % 0x1_0000
  {
  }

  lemma {:induction false} PutElements(u: seq<Pending<DV>>, e: Pending<DV>, x: Pending<DV>)
    requires UniqueKeys(u) && DistinctData(u)
    requires forall i :: 0 <= i < |u| && u[i].data == e.data ==> u[i].key == e.key
    ensures x in Put(u, e) <==> x == e || (x in u && x.key != e.key)
  {
    ChannelRuns.PutKeeps(u, e);
  }

  /** None of the commands still to come waits. */
  lemma {:induction false} NextIsNew(c: Chan<DV>, cmds: seq<DV>, next: DV, now: real, before: Chan<DV>)
    requires AllNew(c, cmds + [next]) && forall e :: Issued(c, cmds, now, before, e)
    ensures forall i :: 0 <= i < |before.unacked| ==> before.unacked[i].data != next
  {
    var all := cmds + [next];
    assert next == all[|cmds|] && forall k :: 0 <= k < |cmds| ==> cmds[k] == all[k];
    forall i | 0 <= i < |before.unacked|
      ensures before.unacked[i].data != next
    {
      assert Issued(c, cmds, now, before, before.unacked[i]);
    }
  }

  lemma {:induction false} IssuedWait(c: Chan<DV>, cmds: seq<DV>, now: real)
    requires WellFormed(c) && AllNew(c, cmds) && |cmds| <= 0x1_0000
    ensures var r := ChannelRuns.RunSteps(c, Issue(cmds, c.nextId, now));
            && WellFormed(r) && r.nextId == c.nextId + |cmds|
            && forall e :: Issued(c, cmds, now, r, e)
  {
    hide Issued;
    if cmds == [] {
      forall e
        ensures Issued(c, cmds, now, c, e)
      {
        NothingIssued(c, now, e);
      }
    } else {
      var n := |cmds| - 1;
      IssuedWait(c, cmds[..n], now);
      var before, next := ChannelRuns.RunSteps(c, Issue(cmds[..n], c.nextId, now)), NewEntry(c, cmds, now, n);
      var steps := [ChannelRuns.BuildStep, ChannelRuns.SendStep(cmds[n], next.key, now)];
      SessionChannel.RunStepsConcat(c, Issue(cmds[..n], c.nextId, now), steps);
      BuildAndSend(before, cmds[n], next.key, now);
      assert cmds == cmds[..n] + [cmds[n]];
      NextIsNew(c, cmds[..n], cmds[n], now, before);
      ChannelRuns.PutKeeps(before.unacked, next);
      var r := ChannelRuns.RunSteps(before, steps);
      forall e
        ensures Issued(c, cmds, now, r, e)
      {
        PutElements(before.unacked, next, e);
        IssuedMore(c, cmds, now, before, r, e);
      }
    }
  }

  lemma {:induction false} NothingIssued(c: Chan<DV>, now: real, e: Pending<DV>)
    ensures Issued(c, [], now, c, e)
  {
  }

  // -- what raises ---------------------------------------------------------------------------

  /** Of the control datagrams that a camera builds, handling raises exactly for a status or
      Wi-Fi settings that are too short, and for a listing whose listener raises. */
  lemma {:induction false} BuiltControlRaisesIff(command: nat, id: nat, ticket: Chunk, data: Chunk,
                                                 st: Asm, raises: bool)
    requires command < 0x1_0000 && |ticket| == 4 && 4 < |data| && |data| + 16 < 0x1_0000
    ensures Raises(ControlPacket(command, id, ticket, Payload(Some(data))), st, raises) <==>
      (command in {0x0811, 0x0261} && |data| < 24) || (command == 0x0361 && raises)
  {
    BuiltIsControl(command, id, ticket, data);
    TypeBytes(ControlPacket(command, id, ticket, Payload(Some(data))));
  }

  /** The other datagrams that it builds are handled without error, unless a listener raises. */
  lemma {:induction false} FramesAreHandled(f: AssemblerRoundTrip.Frame, k: nat, st: Asm)
    requires f.Valid() && k < |f.Datagrams()|
    ensures IsData(f.Datagrams()[k]) && !Raises(f.Datagrams()[k], st, false)
  {
    var d := f.Datagrams()[k];
    TypeBytes(d);
    if k == 0 { AssemblerRoundTrip.ClassifyFirst(f); } else { AssemblerRoundTrip.ClassifyRest(f, k - 1); }
  }

  lemma {:induction false} AcksAreHandled(stream: Byte, ids: seq<nat>, st: Asm, raises: bool)
    requires |ids| < 0x1_0000
    ensures !Raises(EncodeAck(stream, ids), st, raises)
  {
    var d := EncodeAck(stream, ids);
    TypeBytes(d);
    assert d[6..8] == U16(|ids|);
    ReadU16Field(d, 6, |ids|);
    FitsU16(|ids|);
  }

  /** Short datagrams raise: without a type, or Drw, DrwAck and Close without an id, or an ack
      that is shorter than it says. */
  lemma {:induction false} ShortRaises(msg: Chunk, st: Asm, raises: bool)
    ensures |msg| < 2 ==> Raises(msg, st, raises)
    ensures |msg| < 8 && (HasType(msg, 0xD0) || HasType(msg, 0xD1) || HasType(msg, 0xF0)) ==> Raises(msg, st, raises)
    ensures 8 <= |msg| && HasType(msg, 0xD1) ==> (Raises(msg, st, raises) <==> |msg| < 8 + 2 * BE16(msg, 6))
    ensures 8 <= |msg| && HasType(msg, 0xF0) ==> !Raises(msg, st, raises)
    ensures 8 <= |msg| && HasType(msg, 0xD0) && msg[5] == 1 ==>
      (Raises(msg, st, raises) <==>
         LacksField(msg)
         || (raises && (IsSound(msg) || (BeginsImage(msg) && st.curImage != [] && !st.frameIsBad))))
  {
    TypeBytes(msg);
    MalformedIff(msg);
    VideoIff(msg);
    if CarriesVideo(msg) { VideoByBytes(msg); }
    SoundAndOthers(msg, st, raises, false);
  }
}
