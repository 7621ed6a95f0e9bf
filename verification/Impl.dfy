/** cam_reverse/impl.py: builders of outgoing packets, written field by field. */
module Impl {
  import opened Bytes
  import opened DataView
  import opened Crypto
  import opened Sessions
  import ChannelRuns
  import SessionChannel

  const START_CMD: nat := 0x110A
  const CONNECT_USER: nat := 0x2010
  const LIST_WIFI: nat := 0x0360
  const WIFI_SETTINGS_SET: nat := 0x0160

  /** The destination field of an outgoing command; 0 for a command without one. */
  function CcDest(command: nat): nat {
    if command == CONNECT_USER then 0xFF00
    else if command == 0x0361 || command == 0x2011 || command == 0x0811 then 0xAA55
    else 0
  }

  function U16Swap(x: nat): nat {
    x / 0x100 % 0x100 + x % 0x100 * 0x100
  }

  /** Data of at most four bytes is not put in the packet. */
  function Payload(data: Option<Chunk>): Chunk {
    match data
    case Some(d) => if |d| > 4 then Enc(d, 4) else []
    case None => []
  }

  /** Writing `w` just behind what is written already. */
  lemma {:induction false} WriteBehind(done: Chunk, n: nat, w: Chunk)
    requires |w| <= n
    ensures Splice(done + Zeros(n), |done|, w) == done + w + Zeros(n - |w|)
  {
  }

  lemma {:induction false} WriteU16Behind(done: Chunk, n: nat, v: nat)
    requires 2 <= n
    ensures (done + Zeros(n))[|done| := v / 0x100 % 0x100][|done| + 1 := v % 0x100] == done + U16(v) + Zeros(n - 2)
  {
  }

  lemma {:induction false} WriteTwoBytesBehind(done: Chunk, n: nat, a: Byte, b: Byte)
    requires 2 <= n
    ensures (done + Zeros(n))[|done| := a][|done| + 1 := b] == done + [a, b] + Zeros(n - 2)
  {
  }

  lemma {:induction false} SwapIsLittleEndian(v: nat)
    ensures U16(U16Swap(v)) == U16LE(v)
  {
    var hi, lo := v / 0x100 % 0x100, v % 0x100;
    assert (hi + lo * 0x100) / 0x100 == lo && (hi + lo * 0x100) % 0x100 == hi;
  }

  /** A header field, written just behind what is written already. */
  method AppendU16(dv: DV, ghost done: Chunk, v: nat)
    requires dv.offset == |done| && |done| + 2 <= |dv.buf.data|
    requires dv.buf.data == done + Zeros(|dv.buf.data| - |done|)
    modifies dv.buf
    ensures |dv.buf.data| == |old(dv.buf.data)|
    ensures dv.buf.data == done + U16(v) + Zeros(|dv.buf.data| - |done| - 2)
  {
    WriteU16Behind(done, |dv.buf.data| - |done|, v);
    dv.WriteU16(v);
  }

  method AppendTwoBytes(dv: DV, ghost done: Chunk, a: Byte, b: Byte)
    requires dv.offset == |done| && |done| + 2 <= |dv.buf.data|
    requires dv.buf.data == done + Zeros(|dv.buf.data| - |done|)
    modifies dv.buf
    ensures |dv.buf.data| == |old(dv.buf.data)|
    ensures dv.buf.data == done + [a, b] + Zeros(|dv.buf.data| - |done| - 2)
  {
    WriteTwoBytesBehind(done, |dv.buf.data| - |done|, a, b);
    dv.WriteU8(a);
    dv.Add(1).WriteU8(b);
  }

  function OuterHeader(length: nat, id: nat): (h: Chunk)
    ensures |h| == 8
  {
    U16(DRW) + U16(length) + [COMMAND_TAG, 0] + U16(id)
  }

  function InnerHeader(command: nat, payloadLen: nat): (h: Chunk)
    ensures |h| == 8
  {
    U16(START_CMD) + U16(command) + U16LE(payloadLen) + U16(CcDest(command))
  }

  /** The packet, field by field. */
  function ControlPacket(command: nat, id: nat, ticket: Chunk, payload: Chunk): Chunk {
    OuterHeader(16 + |payload|, id) + InnerHeader(command, 4 + |payload|) + PadTicket(ticket) + payload
  }

  method WriteOuterHeader(ret: DV, id: nat)
    requires ret.offset == 0 && |ret.buf.data| >= 20 && ret.buf.data == Zeros(|ret.buf.data|)
    modifies ret.buf
    ensures |ret.buf.data| == |old(ret.buf.data)|
    ensures ret.buf.data == OuterHeader(|ret.buf.data| - 4, id) + Zeros(|ret.buf.data| - 8)
  {
    var total := |ret.buf.data|;
    assert [] + Zeros(total) == Zeros(total);
    AppendU16(ret, [], DRW);
    ghost var done := [] + U16(DRW);
    AppendU16(ret.Add(2), done, total - 4);
    done := done + U16(total - 4);
    AppendTwoBytes(ret.Add(4), done, COMMAND_TAG, 0);
    done := done + [COMMAND_TAG, 0];
    AppendU16(ret.Add(6), done, id);
    assert done + U16(id) == OuterHeader(total - 4, id);
  }

  method WriteInnerHeader(ret: DV, ghost outer: Chunk, command: nat, payloadLen: nat)
    requires ret.offset == 0 && |ret.buf.data| >= 20 && |outer| == 8
    requires ret.buf.data == outer + Zeros(|ret.buf.data| - 8)
    modifies ret.buf
    ensures |ret.buf.data| == |old(ret.buf.data)|
    ensures ret.buf.data == outer + InnerHeader(command, payloadLen) + Zeros(|ret.buf.data| - 16)
  {
    ghost var done := outer;
    AppendU16(ret.Add(8), done, START_CMD);
    done := done + U16(START_CMD);
    AppendU16(ret.Add(10), done, command);
    done := done + U16(command);
    AppendU16(ret.Add(12), done, U16Swap(payloadLen));
    SwapIsLittleEndian(payloadLen);
    done := done + U16LE(payloadLen);
    AppendU16(ret.Add(14), done, CcDest(command));
    assert done + U16(CcDest(command)) == outer + InnerHeader(command, payloadLen);
  }

  method WriteTicketAndPayload(ret: DV, ghost header: Chunk, ticket: Chunk, payload: Chunk)
    requires ret.offset == 0 && |header| == 16 && |ticket| <= 4
    requires ret.buf.data == header + Zeros(4 + |payload|)
    modifies ret.buf
    ensures ret.buf.data == header + PadTicket(ticket) + payload
  {
    WriteBehind(header, 4 + |payload|, ticket);
    ret.Add(16).WriteByteArray(ticket);
    assert ret.buf.data == header + PadTicket(ticket) + Zeros(|payload|);
    if payload != [] {
      WriteBehind(header + PadTicket(ticket), |payload|, payload);
      ret.Add(20).WriteByteArray(payload);
    }
  }

  /** A copy of the data, encoded in place, if it is long enough to be sent at all. */
  method EncodedCopy(data: DV) returns (payload: Chunk)
    ensures payload == Payload(Some(data.ToBytes()))
  {
    payload := [];
    if data.ByteLength() > 4 {
      var buf := new ByteBuffer(data.ToBytes());
      ghost var was := buf.data;
      var copy := DV(buf, 0);
      var _ := XqBytesEnc(copy, copy.ByteLength(), 4);
      assert was[..] == was;
      payload := buf.data;
    }
  }

  /** Builds a control packet under the session's next id and ticket.  The data is copied
      before it is encoded, so the caller's buffer is left alone. */
  method MakeDataReadWrite(s: Session, command: nat, data: Option<DV>) returns (ret: DV)
    requires |s.ticket| <= 4
    modifies s`outgoingCommandId, s`steps
    ensures fresh(ret.buf) && ret.offset == 0
    ensures s.outgoingCommandId == old(s.outgoingCommandId) + 1
    ensures s.steps == old(s.steps) + [ChannelRuns.BuildStep]
    ensures old(s.Recorded()) ==> s.Recorded()
    ensures ret.buf.data == ControlPacket(command, old(s.outgoingCommandId), s.ticket,
      Payload(if data.Some? then Some(data.value.ToBytes()) else None))
  {
    hide PadTicket, OuterHeader, InnerHeader;
    var payload: Chunk := [];
    if data.Some? {
      payload := EncodedCopy(data.value);
    }
    ret := Alloc(20 + |payload|);
    WriteOuterHeader(ret, s.outgoingCommandId);
    ghost var outer := OuterHeader(16 + |payload|, s.outgoingCommandId);
    WriteInnerHeader(ret, outer, command, 4 + |payload|);
    WriteTicketAndPayload(ret, outer + InnerHeader(command, 4 + |payload|), s.ticket, payload);
    CountCommand(s);
  }

  /** The next command gets the next id. */
  method CountCommand(s: Session)
    modifies s`outgoingCommandId, s`steps
    ensures s.outgoingCommandId == old(s.outgoingCommandId) + 1
    ensures s.steps == old(s.steps) + [ChannelRuns.BuildStep]
    ensures old(s.Recorded()) ==> s.Recorded()
  {
    if s.Recorded() {
      SessionChannel.OtherStepKeepsSessionRun(s.steps, ChannelRuns.BuildStep);
    }
    s.outgoingCommandId := s.outgoingCommandId + 1;
    s.steps := s.steps + [ChannelRuns.BuildStep];
  }

  /** Every field of a built packet reads back. */
  lemma {:induction false} ControlPacketFields(command: nat, id: nat, ticket: Chunk, payload: Chunk)
    requires |ticket| <= 4
    ensures var p := ControlPacket(command, id, ticket, payload);
            && |p| == 20 + |payload|
            && BE16(p, 0) == DRW && BE16(p, 2) == (16 + |payload|) % 0x1_0000 && p[4] == COMMAND_TAG && p[5] == 0
            && BE16(p, 6) == id % 0x1_0000 && BE16(p, 8) == START_CMD && BE16(p, 10) == command % 0x1_0000
            && LE16(p, 12) == (4 + |payload|) % 0x1_0000 && BE16(p, 14) == CcDest(command)
            && p[16..20] == PadTicket(ticket) && p[20..] == payload
  {
    var p := ControlPacket(command, id, ticket, payload);
    var outer, inner := OuterHeader(16 + |payload|, id), InnerHeader(command, 4 + |payload|);
    assert p[..8] == outer && p[8..16] == inner;
    assert p[0..2] == U16(DRW);
    ReadU16Field(p, 0, DRW);
    assert p[2..4] == U16(16 + |payload|);
    ReadU16Field(p, 2, 16 + |payload|);
    assert p[6..8] == U16(id);
    ReadU16Field(p, 6, id);
    InnerFields(p, command, 4 + |payload|);
  }

  lemma {:induction false} InnerFields(p: Chunk, command: nat, payloadLen: nat)
    requires |p| >= 16 && p[8..16] == InnerHeader(command, payloadLen)
    ensures BE16(p, 8) == START_CMD && BE16(p, 10) == command % 0x1_0000
    ensures LE16(p, 12) == payloadLen % 0x1_0000 && BE16(p, 14) == CcDest(command)
  {
    var inner := InnerHeader(command, payloadLen);
    SliceOfSlice(p, 8, 16, 0, 2);
    assert inner[0..2] == U16(START_CMD);
    ReadU16Field(p, 8, START_CMD);
    SliceOfSlice(p, 8, 16, 2, 4);
    assert inner[2..4] == U16(command);
    ReadU16Field(p, 10, command);
    SliceOfSlice(p, 8, 16, 4, 6);
    assert inner[4..6] == U16LE(payloadLen);
    ReadU16LEField(p, 12, payloadLen);
    SliceOfSlice(p, 8, 16, 6, 8);
    assert inner[6..8] == U16(CcDest(command));
    ReadU16Field(p, 14, CcDest(command));
  }

  /** The data of a user check: `char account[0x20]; char password[0x80]`, written in this order. */
  function UserCheckData(username: Chunk, password: Chunk): Chunk {
    Splice(Splice(Zeros(0xA0), 0, username), 0x20, password)
  }

  method SendUsrChk(s: Session, username: Chunk, password: Chunk) returns (ret: DV)
    requires |s.ticket| <= 4
    modifies s`outgoingCommandId, s`steps
    ensures fresh(ret.buf) && ret.offset == 0
    ensures s.outgoingCommandId == old(s.outgoingCommandId) + 1
    ensures s.steps == old(s.steps) + [ChannelRuns.BuildStep]
    ensures old(s.Recorded()) ==> s.Recorded()
    ensures ret.buf.data == ControlPacket(CONNECT_USER, old(s.outgoingCommandId), s.ticket,
                                          Payload(Some(UserCheckData(username, password))))
  {
    var data := Alloc(0xA0);
    data.WriteByteArray(username);
    data.Add(0x20).WriteByteArray(password);
    ret := MakeDataReadWrite(s, CONNECT_USER, Some(data));
  }
}
