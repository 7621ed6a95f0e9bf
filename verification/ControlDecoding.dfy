/** The decoding done by `create_response_for_control_command`, cam_reverse/handlers.py:120-135,
    as a function of the datagram, and its agreement with the builder. */
module ControlDecoding {
  import opened Bytes
  import opened Crypto
  import opened Impl

  const ROTATE: nat := 4

  /** The announced payload length, or what there is of a cropped payload. */
  function PayloadLen(d: Chunk): nat
    requires 14 <= |d|
  {
    if |d| > 20 && LE16(d, 12) > |d| then |d| - 20 else LE16(d, 12)
  }

  /** The datagram after in-place decoding, or the exception raised on the way. */
  function DecodeControl(d: Chunk): (r: Result<Chunk>)
    ensures r.Ok? ==> |r.value| == |d| && 14 <= |d|
  {
    if |d| < 14 then Raise(StructError)
    else
      var len := PayloadLen(d);
      if BE16(d, 8) != START_CMD || len <= 4 then Ok(d)
      else if DecInBounds(|d|, 20, len - 4, ROTATE) then Ok(Decoded(d, 20, len - 4, ROTATE))
      else Raise(IndexError)
  }

  /** A datagram whose payload, of four bytes or more, fills it to the end. */
  lemma {:induction false} DecodeWhole(d: Chunk)
    requires 24 <= |d|
    requires BE16(d, 8) == START_CMD && LE16(d, 12) == |d| - 16
    ensures DecodeControl(d) == Ok(d[..0x14] + Dec(d[0x14..], 4))
  {
    var n := |d| - 20;
    assert PayloadLen(d) - 4 == n && DecInBounds(|d|, 20, n, ROTATE);
    assert Slice(d, 20, n) == d[20..];
    assert DecAny(d[20..], ROTATE) == Dec(d[20..], ROTATE);
    SpliceTail(d, 20, Dec(d[20..], ROTATE));
  }

  /** A payload that is announced longer than the datagram: all but its last four bytes is
      decoded, in place.  With five bytes of it the decoder raises, with fewer it is not called. */
  lemma {:induction false} DecodeCropped(d: Chunk)
    requires 20 < |d| < LE16(d, 12) && BE16(d, 8) == 0x110A
    ensures 28 <= |d| ==> DecodeControl(d) == Ok(d[..20] + Dec(d[20..|d| - 4], 4) + d[|d| - 4..])
    ensures DecodeControl(d).Raise? <==> |d| == 25
    ensures |d| <= 24 ==> DecodeControl(d) == Ok(d)
  {
    if 28 <= |d| {
      var n := |d| - 24;
      assert PayloadLen(d) - 4 == n && DecInBounds(|d|, 20, n, ROTATE);
      assert Slice(d, 20, n) == d[20..|d| - 4];
      assert DecAny(d[20..|d| - 4], ROTATE) == Dec(d[20..|d| - 4], ROTATE);
    }
  }

  /** Exactly when decoding raises. */
  lemma {:induction false} DecodeRaisesIff(d: Chunk)
    ensures DecodeControl(d).Raise? <==>
      || |d| < 14
      || (BE16(d, 8) == 0x110A && 4 < PayloadLen(d) && (PayloadLen(d) < 6 || |d| < 24 || |d| < 16 + PayloadLen(d)))
    ensures 14 <= |d| ==> PayloadLen(d) == if 20 < |d| < LE16(d, 12) then |d| - 20 else LE16(d, 12)
  {
  }

  lemma {:induction false} DecodeEncoded(p: Chunk, data: Chunk)
    requires 4 <= |data| && |p| == 20 + |data| && p[20..] == Enc(data, ROTATE)
    requires BE16(p, 8) == START_CMD && LE16(p, 12) == |data| + 4
    ensures DecodeControl(p) == Ok(p[..20] + data)
  {
    DecodeWhole(p);
    EncDecInverse(data, ROTATE);
  }

  /** A command with more than four bytes of data comes back as it was built: the lengths
      agree with the size, every field is recovered, and decoding gives exactly the data. */
  lemma {:induction false} ControlRoundTrip(command: nat, id: nat, ticket: Chunk, data: Chunk)
    requires command < 0x1_0000 && |ticket| == 4 && 4 < |data| && |data| + 16 < 0x1_0000
    ensures var p := ControlPacket(command, id, ticket, Payload(Some(data)));
            && BE16(p, 2) + 4 == |p|
            && BE16(p, 8) == START_CMD && BE16(p, 10) == command && LE16(p, 12) == |data| + 4
            && p[16..20] == ticket
            && DecodeControl(p) == Ok(p[..20] + data)
  {
    var payload := Enc(data, ROTATE);
    FitsU16(16 + |payload|);
    FitsU16(4 + |payload|);
    FitsU16(command);
    ControlPacketFields(command, id, ticket, payload);
    DecodeEncoded(ControlPacket(command, id, ticket, payload), data);
  }

  /** Without data, or with at most four bytes of it, nothing is put in the packet. */
  lemma {:induction false} ShortDataIsDropped(command: nat, id: nat, ticket: Chunk, data: Chunk)
    requires |ticket| <= 4 && |data| <= 4
    ensures var p := ControlPacket(command, id, ticket, Payload(Some(data)));
            p == ControlPacket(command, id, ticket, Payload(None)) && |p| == 20 && DecodeControl(p) == Ok(p)
  {
    ControlPacketFields(command, id, ticket, []);
  }
}
