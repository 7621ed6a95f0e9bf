/** The Wi-Fi settings record: `SendWifiDetails` (cam_reverse/impl.py:95-117) writes it,
    the handler of WifiSettingsAck (cam_reverse/handlers.py:152-167) reads it 20 bytes
    further on, inside the packet. */
module WifiSettings {
  import opened Bytes
  import opened DataView
  import opened Sessions
  import opened Impl
  import opened ControlDecoding
  import opened Wifi
  import ChannelRuns

  const SIZE: nat := 0x108
  const NO_ADDRESS := "0.0.0.0"
  const MASK_REVERSED := "0.255.255.255"

  /** The record after all writes, in order; a long field runs into the next ones, which
      then overwrite it, or lengthens the record. */
  function WifiPayload(channel: nat, ssid: Chunk, psk: Chunk): Chunk {
    WithStrings(Zeros(SIZE)[0x0C := channel % 0x100][0x10 := 0][0x14 := 1], ssid, psk)
  }

  function WithStrings(b: Chunk, ssid: Chunk, psk: Chunk): Chunk {
    var b := Splice(b, 0x18, ssid);
    var b := Splice(b, 0x38, psk);
    var b := Splice(b, 0xB8, EncodeLatin1(NO_ADDRESS));
    var b := Splice(b, 0xC8, EncodeLatin1(MASK_REVERSED));
    var b := Splice(b, 0xD8, EncodeLatin1(NO_ADDRESS));
    var b := Splice(b, 0xE8, EncodeLatin1(NO_ADDRESS));
    Splice(b, 0xF8, EncodeLatin1(NO_ADDRESS))
  }

  method WriteFlags(cmd: DV, channel: nat)
    requires cmd.offset == 0 && cmd.buf.data == Zeros(SIZE)
    modifies cmd.buf
    ensures cmd.buf.data == Zeros(SIZE)[0x0C := channel % 0x100][0x10 := 0][0x14 := 1]
  {
    cmd.Add(0x0C).WriteU8(channel);
    cmd.Add(0x10).WriteU8(0);
    cmd.Add(0x14).WriteU8(1);
  }

  method WriteStrings(cmd: DV, ssid: Chunk, psk: Chunk)
    requires cmd.offset == 0
    modifies cmd.buf
    ensures cmd.buf.data == WithStrings(old(cmd.buf.data), ssid, psk)
  {
    cmd.Add(0x18).WriteByteArray(ssid);
    cmd.Add(0x38).WriteByteArray(psk);
    cmd.Add(0xB8).WriteByteArray(EncodeLatin1(NO_ADDRESS));
    cmd.Add(0xC8).WriteByteArray(EncodeLatin1(MASK_REVERSED));
    cmd.Add(0xD8).WriteByteArray(EncodeLatin1(NO_ADDRESS));
    cmd.Add(0xE8).WriteByteArray(EncodeLatin1(NO_ADDRESS));
    cmd.Add(0xF8).WriteByteArray(EncodeLatin1(NO_ADDRESS));
  }

  method SendWifiDetails(s: Session, ssid: string, password: string, channel: nat, dhcp: bool) returns (r: Result<DV>)
    requires |s.ticket| <= 4
    modifies s`outgoingCommandId, s`steps
    ensures r.Ok? <==> dhcp && IsLatin1(ssid) && IsLatin1(password)
    ensures r.Ok? ==> fresh(r.value.buf) && r.value.offset == 0
    ensures r.Ok? ==> r.value.buf.data == ControlPacket(WIFI_SETTINGS_SET, old(s.outgoingCommandId), s.ticket,
      Payload(Some(WifiPayload(channel, EncodeLatin1(ssid), EncodeLatin1(password)))))
    ensures s.outgoingCommandId == old(s.outgoingCommandId) + if r.Ok? then 1 else 0
    ensures s.steps == old(s.steps) + if r.Ok? then [ChannelRuns.BuildStep] else []
    ensures old(s.Recorded()) ==> s.Recorded()
  {
    if !dhcp {
      return Raise(ValueError);
    }
    var cmd := Alloc(SIZE);
    WriteFlags(cmd, channel);
    if !IsLatin1(ssid) || !IsLatin1(password) {
      return Raise(UnicodeError);
    }
    WriteStrings(cmd, EncodeLatin1(ssid), EncodeLatin1(password));
    var pkt := MakeDataReadWrite(s, WIFI_SETTINGS_SET, Some(cmd));
    return Ok(pkt);
  }

  datatype Settings = Settings(channel: nat, dhcp: nat, ssid: string, psk: string,
                               ip: string, mask: string, gw: string, dns1: string, dns2: string)

  function ReadString(d: Chunk, at: nat, width: nat): string {
    Latin1(UntilNul(Slice(d, at, width)))
  }

  /** The settings in a decoded WifiSettingsAck. */
  function ReadSettings(d: Chunk): Settings
    requires 0x2C <= |d|
  {
    Settings(BE32(d, 0x20), BE32(d, 0x28), ReadString(d, 0x2C, 0x20), ReadString(d, 0x4C, 0x80),
             ReadString(d, 0xCC, 0x10), ReadString(d, 0xDC, 0x10), ReadString(d, 0xEC, 0x10),
             ReadString(d, 0xFC, 0x10), ReadString(d, 0x10C, 0x10))
  }

  /** The reading of a decoded WifiSettingsAck.  (Fields that are only logged are read, too:
      the reading of one that is not there raises.) */
  method ParseSettings(dv: DV) returns (r: Result<Settings>)
    requires dv.offset == 0
    ensures r.Ok? <==> 0x2C <= |dv.buf.data|
    ensures r.Ok? ==> r.value == ReadSettings(dv.buf.data)
  {
    var enable :- dv.Add(0x14).ReadU32();
    var status :- dv.Add(0x18).ReadU32();
    var mode :- dv.Add(0x1C).ReadU32LE();
    var channel :- dv.Add(0x20).ReadU32();
    var authtype :- dv.Add(0x24).ReadU32();
    var dhcp :- dv.Add(0x28).ReadU32();
    return Ok(Settings(channel, dhcp, dv.Add(0x2C).ReadString(0x20), dv.Add(0x4C).ReadString(0x80),
                       dv.Add(0xCC).ReadString(0x10), dv.Add(0xDC).ReadString(0x10), dv.Add(0xEC).ReadString(0x10),
                       dv.Add(0xFC).ReadString(0x10), dv.Add(0x10C).ReadString(0x10)));
  }

  /** A string that fits its field of `width` bytes and is not cut short by a NUL. */
  predicate Fits(s: string, width: nat) {
    IsLatin1(s) && |s| <= width && forall k :: 0 <= k < |s| ==> s[k] != 0 as char
  }

  /** The fields one behind the other, when each fits its place. */
  function Layout(channel: nat, ssid: Chunk, psk: Chunk): (l: Chunk)
    requires |ssid| <= 0x20 && |psk| <= 0x80
    ensures |l| == SIZE
  {
    Head(channel) + Pad(ssid, 0x20) + Pad(psk, 0x80)
    + Pad(EncodeLatin1(NO_ADDRESS), 0x10) + Pad(EncodeLatin1(MASK_REVERSED), 0x10)
    + Pad(EncodeLatin1(NO_ADDRESS), 0x10) + Pad(EncodeLatin1(NO_ADDRESS), 0x10) + Pad(EncodeLatin1(NO_ADDRESS), 0x10)
  }

  function Head(channel: nat): (h: Chunk)
    ensures |h| == 0x18
  {
    Zeros(12) + [channel % 0x100, 0, 0, 0] + Zeros(4) + [1, 0, 0, 0]
  }

  lemma {:induction false} PadBehind(done: Chunk, n: nat, s: Chunk, width: nat)
    requires |s| <= width <= n
    ensures Splice(done + Zeros(n), |done|, s) == done + Pad(s, width) + Zeros(n - width)
  {
  }

  /** No write overlaps another when the strings fit. */
  lemma {:induction false} WritesDoNotOverlap(channel: nat, ssid: Chunk, psk: Chunk)
    requires |ssid| <= 0x20 && |psk| <= 0x80
    ensures WifiPayload(channel, ssid, psk) == Layout(channel, ssid, psk)
  {
    var none, mask := EncodeLatin1(NO_ADDRESS), EncodeLatin1(MASK_REVERSED);
    var d0 := Head(channel);
    assert Zeros(SIZE)[0x0C := channel % 0x100][0x10 := 0][0x14 := 1] == d0 + Zeros(0xF0);
    PadBehind(d0, 0xF0, ssid, 0x20);
    var d1 := d0 + Pad(ssid, 0x20);
    PadBehind(d1, 0xD0, psk, 0x80);
    var d2 := d1 + Pad(psk, 0x80);
    PadBehind(d2, 0x50, none, 0x10);
    var d3 := d2 + Pad(none, 0x10);
    PadBehind(d3, 0x40, mask, 0x10);
    var d4 := d3 + Pad(mask, 0x10);
    PadBehind(d4, 0x30, none, 0x10);
    var d5 := d4 + Pad(none, 0x10);
    PadBehind(d5, 0x20, none, 0x10);
    var d6 := d5 + Pad(none, 0x10);
    PadBehind(d6, 0x10, none, 0x10);
    assert d6 + Pad(none, 0x10) + Zeros(0) == Layout(channel, ssid, psk);
  }

  lemma {:induction false} FieldAt(before: Chunk, s: string, width: nat, after: Chunk)
    requires Fits(s, width)
    ensures ReadString(before + Pad(EncodeLatin1(s), width) + after, |before|, width) == s
  {
    var field := Pad(EncodeLatin1(s), width);
    if width > 0 {
      assert Slice(before + field + after, |before|, width) == field;
    } else {
      assert s == [];
    }
    PaddedStringReadsBack(s, width, field);
  }

  /** Everything in the packet before a field, and after it. */
  lemma {:induction false} FieldReads(d: Chunk, at: nat, s: string, width: nat)
    requires Fits(s, width) && at + width <= |d|
    requires d[at..at + width] == Pad(EncodeLatin1(s), width)
    ensures ReadString(d, at, width) == s
  {
    assert d == d[..at] + d[at..at + width] + d[at + width..];
    FieldAt(d[..at], s, width, d[at + width..]);
  }

  /** The fields of the record, 20 bytes on, where the reader looks for them. */
  lemma {:induction false} LayoutFields(header: Chunk, channel: nat, ssid: Chunk, psk: Chunk)
    requires |header| == 20 && |ssid| <= 0x20 && |psk| <= 0x80
    ensures var d := header + Layout(channel, ssid, psk);
            && d[0x20..0x24] == [channel % 0x100, 0, 0, 0] && d[0x28..0x2C] == [1, 0, 0, 0]
            && d[0x2C..0x4C] == Pad(ssid, 0x20) && d[0x4C..0xCC] == Pad(psk, 0x80)
            && d[0xCC..0xDC] == Pad(EncodeLatin1(NO_ADDRESS), 0x10)
            && d[0xDC..0xEC] == Pad(EncodeLatin1(MASK_REVERSED), 0x10)
            && d[0xEC..0xFC] == Pad(EncodeLatin1(NO_ADDRESS), 0x10)
            && d[0xFC..0x10C] == Pad(EncodeLatin1(NO_ADDRESS), 0x10)
            && d[0x10C..0x11C] == Pad(EncodeLatin1(NO_ADDRESS), 0x10)
  {
    hide Pad;
    Pieces(header + Head(channel), Pad(ssid, 0x20), Pad(psk, 0x80),
           Pad(EncodeLatin1(NO_ADDRESS), 0x10), Pad(EncodeLatin1(MASK_REVERSED), 0x10));
    var d := header + Layout(channel, ssid, psk);
    assert d == header + Head(channel) + Pad(ssid, 0x20) + Pad(psk, 0x80)
                + Pad(EncodeLatin1(NO_ADDRESS), 0x10) + Pad(EncodeLatin1(MASK_REVERSED), 0x10)
                + Pad(EncodeLatin1(NO_ADDRESS), 0x10) + Pad(EncodeLatin1(NO_ADDRESS), 0x10)
                + Pad(EncodeLatin1(NO_ADDRESS), 0x10);
    assert d[..0x2C] == header + Head(channel);
    assert d[0x20..0x24] == d[..0x2C][0x20..0x24];
    assert d[0x28..0x2C] == d[..0x2C][0x28..0x2C];
  }

  lemma {:induction false} Pieces(h: Chunk, ssid: Chunk, psk: Chunk, a: Chunk, m: Chunk)
    requires |h| == 0x2C && |ssid| == 0x20 && |psk| == 0x80 && |a| == 0x10 && |m| == 0x10
    ensures var d := h + ssid + psk + a + m + a + a + a;
            && d[0x2C..0x4C] == ssid && d[0x4C..0xCC] == psk && d[0xCC..0xDC] == a && d[0xDC..0xEC] == m
            && d[0xEC..0xFC] == a && d[0xFC..0x10C] == a && d[0x10C..0x11C] == a
  {
  }

  /** The packet that `SendWifiDetails` sends, as its receiver decodes it. */
  function SentAndDecoded(id: nat, ticket: Chunk, channel: nat, ssid: string, psk: string): Result<Chunk>
    requires IsLatin1(ssid) && IsLatin1(psk)
  {
    DecodeControl(ControlPacket(WIFI_SETTINGS_SET, id, ticket,
                                Payload(Some(WifiPayload(channel, EncodeLatin1(ssid), EncodeLatin1(psk))))))
  }

  lemma {:induction false} AddressesFit()
    ensures Fits(NO_ADDRESS, 0x10) && Fits(MASK_REVERSED, 0x10)
  {
  }

  lemma {:induction false} SettingsFromFields(d: Chunk, channel: Byte, ssid: string, psk: string)
    requires |d| >= 0x11C && Fits(ssid, 0x20) && Fits(psk, 0x80)
    requires d[0x20..0x24] == [channel, 0, 0, 0] && d[0x28..0x2C] == [1, 0, 0, 0]
    requires d[0x2C..0x4C] == Pad(EncodeLatin1(ssid), 0x20) && d[0x4C..0xCC] == Pad(EncodeLatin1(psk), 0x80)
    ensures var s := ReadSettings(d);
            s.ssid == ssid && s.psk == psk && s.channel == channel * 0x100_0000 && s.dhcp == 0x100_0000
  {
    FieldReads(d, 0x2C, ssid, 0x20);
    FieldReads(d, 0x4C, psk, 0x80);
    BytesOfFlag(d, 0x20, channel);
    BytesOfFlag(d, 0x28, 1);
  }

  lemma {:induction false} AddressesFromFields(d: Chunk)
    requires |d| >= 0x11C
    requires d[0xCC..0xDC] == Pad(EncodeLatin1(NO_ADDRESS), 0x10)
      && d[0xDC..0xEC] == Pad(EncodeLatin1(MASK_REVERSED), 0x10)
    requires d[0xEC..0xFC] == Pad(EncodeLatin1(NO_ADDRESS), 0x10)
      && d[0xFC..0x10C] == Pad(EncodeLatin1(NO_ADDRESS), 0x10)
    requires d[0x10C..0x11C] == Pad(EncodeLatin1(NO_ADDRESS), 0x10)
    ensures var s := ReadSettings(d);
            && s.ip == NO_ADDRESS && s.mask == MASK_REVERSED && s.gw == NO_ADDRESS
            && s.dns1 == NO_ADDRESS && s.dns2 == NO_ADDRESS
  {
    AddressesFit();
    FieldReads(d, 0xCC, NO_ADDRESS, 0x10);
    FieldReads(d, 0xDC, MASK_REVERSED, 0x10);
    FieldReads(d, 0xEC, NO_ADDRESS, 0x10);
    FieldReads(d, 0xFC, NO_ADDRESS, 0x10);
    FieldReads(d, 0x10C, NO_ADDRESS, 0x10);
  }

  lemma {:induction false} SettingsOfLayout(header: Chunk, channel: nat, ssid: string, psk: string)
    requires |header| == 20 && Fits(ssid, 0x20) && Fits(psk, 0x80)
    ensures ReadSettings(header + Layout(channel, EncodeLatin1(ssid), EncodeLatin1(psk)))
            == Settings(channel % 0x100 * 0x100_0000, 0x100_0000, ssid, psk,
                        NO_ADDRESS, MASK_REVERSED, NO_ADDRESS, NO_ADDRESS, NO_ADDRESS)
  {
    var d := header + Layout(channel, EncodeLatin1(ssid), EncodeLatin1(psk));
    LayoutFields(header, channel, EncodeLatin1(ssid), EncodeLatin1(psk));
    SettingsFromFields(d, channel % 0x100, ssid, psk);
    AddressesFromFields(d);
  }

  /** A byte written little-endian and read big-endian. */
  lemma {:induction false} BytesOfFlag(d: Chunk, at: nat, b: Byte)
    requires at + 4 <= |d| && d[at..at + 4] == [b, 0, 0, 0]
    ensures BE32(d, at) == b * 0x100_0000
  {
    assert d[at] == d[at..at + 4][0] && d[at + 1] == d[at..at + 4][1];
    assert d[at + 2] == d[at..at + 4][2] && d[at + 3] == d[at..at + 4][3];
  }

  lemma {:induction false} StringReadFits(d: Chunk, at: nat, width: nat, s: string)
    requires ReadString(d, at, width) == s && IsLatin1(s)
    ensures Fits(s, width)
  {
    var raw := UntilNul(Slice(d, at, width));
    assert forall k :: 0 <= k < |s| ==> s[k] == raw[k] as char && raw[k] in raw;
  }

  /** Main result: network name and password come back exactly if and only if they fit
      their fields and hold no NUL; then so do the addresses, while the channel, written
      as one byte and read as a big-endian word, comes back as `channel * 2^24`. */
  lemma {:induction false} WifiRoundTripIff(id: nat, ticket: Chunk, channel: nat, ssid: string, psk: string)
    requires |ticket| == 4 && IsLatin1(ssid) && IsLatin1(psk)
    ensures var r := SentAndDecoded(id, ticket, channel, ssid, psk);
            (r.Ok? && |r.value| >= 0x2C && ReadSettings(r.value).ssid == ssid && ReadSettings(r.value).psk == psk)
            <==> (Fits(ssid, 0x20) && Fits(psk, 0x80))
    ensures Fits(ssid, 0x20) && Fits(psk, 0x80) ==>
      ReadSettings(SentAndDecoded(id, ticket, channel, ssid, psk).value)
      == Settings(channel % 0x100 * 0x100_0000, 0x100_0000, ssid, psk,
                  NO_ADDRESS, MASK_REVERSED, NO_ADDRESS, NO_ADDRESS, NO_ADDRESS)
  {
    var r := SentAndDecoded(id, ticket, channel, ssid, psk);
    if Fits(ssid, 0x20) && Fits(psk, 0x80) {
      var s, p := EncodeLatin1(ssid), EncodeLatin1(psk);
      WritesDoNotOverlap(channel, s, p);
      ControlRoundTrip(WIFI_SETTINGS_SET, id, ticket, Layout(channel, s, p));
      SettingsOfLayout(ControlPacket(WIFI_SETTINGS_SET, id, ticket, Payload(Some(Layout(channel, s, p))))[..20],
                       channel, ssid, psk);
    }
    if r.Ok? && |r.value| >= 0x2C && ReadSettings(r.value).ssid == ssid && ReadSettings(r.value).psk == psk {
      StringReadFits(r.value, 0x2C, 0x20, ssid);
      StringReadFits(r.value, 0x4C, 0x80, psk);
    }
  }
}
