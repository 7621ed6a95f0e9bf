/** What a received datagram makes a session do, as functions of the datagram: what it
    acknowledges, which commands it is answered with, what is transmitted, and whether its
    handling raises.  `Handlers.HandleIncoming` is proved to do this. */
module Answers {
  import opened Bytes
  import opened DataView
  import opened ChannelRuns
  import opened FrameAssembler
  import opened Sessions
  import opened Impl
  import opened ControlDecoding
  import Discovery

  const DRW_ACK: nat := 0xF1D1
  const P2P_ALIVE: nat := 0xF1E0
  const P2P_ALIVE_ACK: nat := 0xF1E1
  const CLOSE: nat := 0xF1F0

  predicate Is(msg: Chunk, command: nat) {
    2 <= |msg| && BE16(msg, 0) == command
  }

  predicate IsAlive(msg: Chunk) {
    Is(msg, P2P_ALIVE) || Is(msg, P2P_ALIVE_ACK)
  }

  /** A Close, long enough for the ack that is sent first. */
  predicate Closes(msg: Chunk) {
    8 <= |msg| && Is(msg, CLOSE)
  }

  /** A Drw datagram of the data stream. */
  predicate IsData(msg: Chunk) {
    8 <= |msg| && Is(msg, DRW) && msg[5] == 1
  }

  /** A Drw datagram of the control stream. */
  predicate IsControl(msg: Chunk) {
    8 <= |msg| && Is(msg, DRW) && msg[5] == 0
  }

  // -- acknowledgements ------------------------------------------------------------

  /** An ack for one packet, in 32 bytes. */
  function AckPacket(id: nat, stream: Byte): (p: Chunk)
    ensures |p| == 32
  {
    AckHead(stream) + U16(1) + U16(id) + Zeros(22)
  }

  function AckHead(stream: Byte): (h: Chunk)
    ensures |h| == 6
  {
    U16(DRW_ACK) + U16(6) + [0xD2, stream]
  }

  /** The ids in an ack that can be read: as many as announced, or as there are. */
  function AckCount(d: Chunk): (n: nat)
    requires 8 <= |d|
    ensures n <= BE16(d, 6) && 8 + 2 * n <= |d|
    ensures n < BE16(d, 6) ==> |d| < 8 + 2 * (n + 1)
  {
    Min(BE16(d, 6), (|d| - 8) / 2)
  }

  function AckIds(d: Chunk, n: nat): seq<nat>
    requires 8 <= |d| && n <= AckCount(d)
  {
    seq(n, i requires 0 <= i < n => BE16(d, 8 + 2 * i))
  }

  /** The acks of all these ids, in order. */
  ghost function AckSteps(ids: seq<nat>): seq<Step<DV>> {
    seq(|ids|, i requires 0 <= i < |ids| => AckStep(ids[i]))
  }

  /** A list of 16-bit ids, as it is written. */
  function EncodeIds(ids: seq<nat>): (d: Chunk)
    ensures |d| == 2 * |ids|
  {
    if ids == [] then [] else EncodeIds(ids[..|ids| - 1]) + U16(ids[|ids| - 1])
  }

  /** A datagram that acknowledges these ids. */
  function EncodeAck(stream: Byte, ids: seq<nat>): Chunk {
    [0xF1, 0xD1] + U16(4 + 2 * |ids|) + [0xD2, stream] + U16(|ids|) + EncodeIds(ids)
  }

  lemma {:induction false} EncodedId(ids: seq<nat>, k: nat)
    requires k < |ids|
    ensures EncodeIds(ids)[2 * k..2 * k + 2] == U16(ids[k])
  {
    var n := |ids| - 1;
    if k < n {
      EncodedId(ids[..n], k);
      assert EncodeIds(ids)[2 * k..2 * k + 2] == EncodeIds(ids[..n])[2 * k..2 * k + 2];
    }
  }

  /** All ids of an ack are read, whatever follows them. */
  lemma {:induction false} AckRoundTrip(stream: Byte, ids: seq<nat>, rest: Chunk)
    requires |ids| < 0x1_0000 && forall k :: 0 <= k < |ids| ==> ids[k] < 0x1_0000
    ensures var d := EncodeAck(stream, ids) + rest;
            Is(d, DRW_ACK) && AckIds(d, AckCount(d)) == ids
  {
    var d, e := EncodeAck(stream, ids) + rest, EncodeIds(ids);
    assert d[6..8] == U16(|ids|);
    ReadU16Field(d, 6, |ids|);
    FitsU16(|ids|);
    forall k | 0 <= k < |ids|
      ensures AckIds(d, AckCount(d))[k] == ids[k]
    {
      EncodedId(ids, k);
      assert d[8 + 2 * k..8 + 2 * k + 2] == e[2 * k..2 * k + 2];
      ReadU16Field(d, 8 + 2 * k, ids[k]);
      FitsU16(ids[k]);
    }
  }

  /** Id `id` can be read in the ack `d`. */
  predicate Acknowledges(d: Chunk, id: nat)
    requires 8 <= |d|
  {
    exists k :: 0 <= k < BE16(d, 6) && 10 + 2 * k <= |d| && BE16(d, 8 + 2 * k) == id
  }

  lemma {:induction false} AckIdsAreAcknowledged(d: Chunk, id: nat)
    requires 8 <= |d|
    ensures id in AckIds(d, AckCount(d)) <==> Acknowledges(d, id)
  {
    var ids := AckIds(d, AckCount(d));
    if k :| 0 <= k < BE16(d, 6) && 10 + 2 * k <= |d| && BE16(d, 8 + 2 * k) == id {
      assert ids[k] == id;
    }
  }

  /** The ack that is sent for a packet acknowledges exactly that packet. */
  lemma {:induction false} AckAcknowledges(id: nat, stream: Byte)
    requires id < 0x1_0000
    ensures var p := AckPacket(id, stream);
            && p[..6] == [0xF1, 0xD1, 0x00, 0x06, 0xD2, stream]
            && BE16(p, 0) == DRW_ACK && AckIds(p, AckCount(p)) == [id] && !IsCommand(p)
  {
    var p := AckPacket(id, stream);
    assert p[0..2] == U16(DRW_ACK);
    ReadU16Field(p, 0, DRW_ACK);
    assert p[6..8] == U16(1);
    ReadU16Field(p, 6, 1);
    assert p[8..10] == U16(id);
    ReadU16Field(p, 8, id);
    FitsU16(id);
  }

  // -- control ---------------------------------------------------------------------

  const CONNECT_USER_ACK: nat := 0x2011
  const DEV_STATUS_ACK: nat := 0x0811
  const WIFI_SETTINGS_ACK: nat := 0x0261
  const LIST_WIFI_ACK: nat := 0x0361

  /** What the "login" listener of the session does: start the stream (HTTP server and
      single capture), or ask for the Wi-Fi networks (pairing). */
  datatype OnLogin = StartStream | ScanWifi

  const RESOLUTION_640x480: Chunk := [1, 0, 0, 0, 2, 0, 0, 0]

  /** "admin", for account and password. */
  const ADMIN: Chunk := [0x61, 0x64, 0x6D, 0x69, 0x6E]

  /** A control datagram with this command, which decodes. */
  predicate IsAnswer(d: Chunk, command: nat) {
    14 <= |d| && BE16(d, 8) == START_CMD && BE16(d, 10) == command && DecodeControl(d).Ok?
  }

  predicate IsUserAck(d: Chunk) {
    IsAnswer(d, CONNECT_USER_ACK)
  }

  /** The ticket that a ConnectUserAck brings. */
  function TicketIn(d: Chunk): Chunk
    requires IsUserAck(d)
  {
    Slice(DecodeControl(d).value, 0x18, 4)
  }

  /** What the session sends when it has logged in: with the ticket just received. */
  function LoginCommands(id: nat, ticket: Chunk, onLogin: OnLogin): seq<Chunk> {
    match onLogin
    case StartStream =>
      [ControlPacket(VIDEO_PARAM_SET, id, ticket, Payload(Some(RESOLUTION_640x480))),
       ControlPacket(START_VIDEO, id + 1, ticket, Payload(None))]
    case ScanWifi =>
      [ControlPacket(LIST_WIFI, id, ticket, Payload(None))]
  }

  /** The commands that answer a control datagram, `id` being the next id. */
  function ControlCommands(d: Chunk, id: nat, ticket: Chunk, onLogin: OnLogin): seq<Chunk> {
    if IsUserAck(d) then LoginCommands(id, TicketIn(d), onLogin)
    else if IsAnswer(d, WIFI_SETTINGS_ACK) && 0x2C <= |d| then [ControlPacket(LIST_WIFI, id, ticket, Payload(None))]
    else []
  }

  /** The log of a login, if it is one, and of the answering commands. */
  function ControlLog(d: Chunk, id: nat, ticket: Chunk, onLogin: OnLogin): seq<LogEntry> {
    (if IsUserAck(d) then [Login(TicketIn(d))] else []) + AllSent(ControlCommands(d, id, ticket, onLogin))
  }

  function AllSent(packets: seq<Chunk>): seq<LogEntry> {
    seq(|packets|, i requires 0 <= i < |packets| => Sent(packets[i]))
  }

  /** Handling a control datagram raises: it does not decode, a field to be read lies
      beyond its end, or the listener of a listing raises. */
  predicate ControlRaises(d: Chunk, raises: bool) {
    || DecodeControl(d).Raise?
    || ((IsAnswer(d, DEV_STATUS_ACK) || IsAnswer(d, WIFI_SETTINGS_ACK)) && |d| < 0x2C)
    || (IsAnswer(d, LIST_WIFI_ACK) && PayloadLen(d) != 4 && (|d| < 20 || raises))
  }

  // -- any datagram ------------------------------------------------------------------

  predicate IsLogin(msg: Chunk) {
    IsControl(msg) && IsUserAck(msg)
  }

  function TicketAfter(msg: Chunk, ticket: Chunk): Chunk {
    if IsLogin(msg) then TicketIn(msg) else ticket
  }

  /** The user check that answers a P2pRdy. */
  function UserCheck(id: nat, ticket: Chunk): Chunk {
    ControlPacket(CONNECT_USER, id, ticket, Payload(Some(UserCheckData(ADMIN, ADMIN))))
  }

  /** The commands that answer a datagram. */
  function Commands(msg: Chunk, id: nat, ticket: Chunk, onLogin: OnLogin): seq<Chunk> {
    if Is(msg, Discovery.P2P_RDY) then [UserCheck(id, ticket)]
    else if IsControl(msg) then ControlCommands(msg, id, ticket, onLogin)
    else []
  }

  function Keepalive(command: nat): Chunk {
    U16(command) + U16(0)
  }

  /** Drw and Close are acknowledged before anything else. */
  function AckFor(msg: Chunk): seq<LogEntry> {
    if 8 <= |msg| && (Is(msg, DRW) || Is(msg, CLOSE)) then [Sent(AckPacket(BE16(msg, 6), msg[5]))] else []
  }

  /** What is transmitted, with the login among it. */
  function Transcript(msg: Chunk, id: nat, ticket: Chunk, onLogin: OnLogin): seq<LogEntry> {
    if Is(msg, P2P_ALIVE) then [Sent(Keepalive(P2P_ALIVE_ACK))]
    else if Is(msg, Discovery.P2P_RDY) then [Sent(UserCheck(id, ticket))]
    else AckFor(msg) + if IsControl(msg) then ControlLog(msg, id, ticket, onLogin) else []
  }

  /** Building and sending these commands, one after the other. */
  ghost function Issue(cmds: seq<DV>, id: nat, now: real): seq<Step<DV>> {
    if cmds == [] then []
    else
      var n := |cmds| - 1;
      Issue(cmds[..n], id, now) + [BuildStep, SendStep(cmds[n], (id + n) % 0x1_0000, now)]
  }

  /** What a datagram does to the command channel, if it is answered with `cmds`. */
  ghost function ChannelSteps(msg: Chunk, cmds: seq<DV>, id: nat, now: real): seq<Step<DV>> {
    if 8 <= |msg| && Is(msg, DRW_ACK) then AckSteps(AckIds(msg, AckCount(msg))) else Issue(cmds, id, now)
  }

  /** The commands in `cmds` are these packets. */
  predicate Hold(cmds: seq<DV>, packets: seq<Chunk>)
    reads set k | 0 <= k < |cmds| :: cmds[k].buf
  {
    |cmds| == |packets| && forall k :: 0 <= k < |cmds| ==> cmds[k].offset == 0 && cmds[k].buf.data == packets[k]
  }

  predicate DataRaises(msg: Chunk, st: Asm, raises: bool) {
    var i := Classify(msg);
    i.Malformed? || (raises && (i.Audio? || Emits(st, i)))
  }

  /** Handling a datagram raises. */
  predicate Raises(msg: Chunk, st: Asm, raises: bool) {
    || |msg| < 2
    || ((Is(msg, DRW) || Is(msg, CLOSE) || Is(msg, DRW_ACK)) && |msg| < 8)
    || (Is(msg, DRW_ACK) && |msg| < 8 + 2 * BE16(msg, 6))
    || (IsData(msg) && DataRaises(msg, st, raises))
    || (IsControl(msg) && ControlRaises(msg, raises))
  }
}
