/** Discovery: `parse_PunchPkt` (cam_reverse/impl.py:174-182), the P2pRdy that answers it
    (cam_reverse/handlers.py:43-51, cam_reverse/impl.py:142-148), and the identity of a
    camera. */
module Discovery {
  import opened Bytes
  import opened DataView
  import opened Impl

  datatype DevSerial = DevSerial(prefix: string, serial: string, suffix: string, serialU64: nat, devId: string)

  // -- decimal printing ---------------------------------------------------------------

  predicate IsDigit(c: char) {
    '0' <= c <= '9'
  }

  function DigitOf(n: nat): (c: char)
    requires n < 10
    ensures IsDigit(c)
  {
    ('0' as int + n) as char
  }

  /** `str(n)` */
  function Decimal(n: nat): (s: string)
    ensures s != [] && forall i :: 0 <= i < |s| ==> IsDigit(s[i])
  {
    if n < 10 then [DigitOf(n)] else Decimal(n / 10) + [DigitOf(n % 10)]
  }

  function ParseDecimal(s: string): nat
    requires forall i :: 0 <= i < |s| ==> IsDigit(s[i])
  {
    if s == [] then 0
    else
      var c := s[|s| - 1];
      assert IsDigit(c);
      10 * ParseDecimal(s[..|s| - 1]) + (c as int - '0' as int)
  }

  lemma {:induction false} DecimalReadsBack(n: nat)
    ensures ParseDecimal(Decimal(n)) == n
  {
    if n < 10 {
      assert ParseDecimal([]) == 0;
      assert [DigitOf(n)][..0] == [];
    } else {
      DecimalReadsBack(n / 10);
      var s := Decimal(n / 10) + [DigitOf(n % 10)];
      assert s[..|s| - 1] == Decimal(n / 10);
    }
  }

  // -- identity -----------------------------------------------------------------------

  function DevId(prefix: string, serial: nat, suffix: string): string {
    prefix + Decimal(serial) + suffix
  }

  predicate NoDigit(s: string) {
    forall i :: 0 <= i < |s| ==> !IsDigit(s[i])
  }

  predicate NoLeadingDigit(s: string) {
    s != [] ==> !IsDigit(s[0])
  }

  /** How many characters at the front are digits, or are not. */
  function Leading(s: string, digits: bool): nat {
    if s == [] || IsDigit(s[0]) != digits then 0 else 1 + Leading(s[1..], digits)
  }

  lemma {:induction false} LeadingWord(w: string, rest: string, digits: bool)
    requires forall i :: 0 <= i < |w| ==> IsDigit(w[i]) == digits
    requires rest != [] ==> IsDigit(rest[0]) != digits
    ensures Leading(w + rest, digits) == |w|
  {
    if w == [] {
      assert w + rest == rest;
    } else {
      LeadingWord(w[1..], rest, digits);
      assert (w + rest)[1..] == w[1..] + rest;
    }
  }

  /** Words of one kind end where that kind ends. */
  lemma {:induction false} SplitsOneWay(w: string, rest: string, w': string, rest': string, digits: bool)
    requires forall i :: 0 <= i < |w| ==> IsDigit(w[i]) == digits
    requires forall i :: 0 <= i < |w'| ==> IsDigit(w'[i]) == digits
    requires rest != [] ==> IsDigit(rest[0]) != digits
    requires rest' != [] ==> IsDigit(rest'[0]) != digits
    requires w + rest == w' + rest'
    ensures w == w' && rest == rest'
  {
    LeadingWord(w, rest, digits);
    LeadingWord(w', rest', digits);
    var all := w + rest;
    assert all[..|w|] == w && all[..|w|] == w';
    assert all[|w|..] == rest && all[|w|..] == rest';
  }

  /** Two cameras have the same identity only if prefix, serial number and suffix agree,
      provided that prefixes hold no digit and suffixes do not begin with one. */
  lemma {:induction false} DevIdInjective(p: string, n: nat, s: string, p': string, n': nat, s': string)
    requires NoDigit(p) && NoDigit(p') && NoLeadingDigit(s) && NoLeadingDigit(s')
    requires DevId(p, n, s) == DevId(p', n', s')
    ensures p == p' && n == n' && s == s'
  {
    assert DevId(p, n, s) == p + (Decimal(n) + s) && DevId(p', n', s') == p' + (Decimal(n') + s');
    SplitsOneWay(p, Decimal(n) + s, p', Decimal(n') + s', false);
    SplitsOneWay(Decimal(n), s, Decimal(n'), s', true);
    DecimalReadsBack(n);
    DecimalReadsBack(n');
  }

  /** Without these conditions two cameras can share an identity. */
  lemma {:induction false} DevIdNotInjectiveWithDigits()
    ensures DevId("A1", 2, "B") == DevId("A", 12, "B") && DevId("A", 1, "2B") == DevId("A", 12, "B")
  {
    assert Decimal(12) == "12" by {
      assert Decimal(1) == "1" && Decimal(12) == Decimal(1) + "2";
    }
    assert Decimal(2) == "2" && Decimal(1) == "1";
  }

  // -- PunchPkt and P2pRdy ----------------------------------------------------------------

  function ParsedPunchPkt(d: Chunk): DevSerial
    requires 16 <= |d|
  {
    var prefix, suffix := Latin1(UntilNul(Slice(d, 4, 4))), Latin1(UntilNul(Slice(d, 16, BE16(d, 2) - 12)));
    var u64 := BE64(d, 8);
    DevSerial(prefix, Decimal(u64), suffix, u64, DevId(prefix, u64, suffix))
  }

  method ParsePunchPkt(dv: DV) returns (r: Result<DevSerial>)
    requires dv.offset == 0
    ensures r.Ok? <==> 16 <= |dv.buf.data|
    ensures r.Ok? ==> r.value == ParsedPunchPkt(dv.buf.data)
  {
    var _ :- dv.ReadU16();
    var length :- dv.Add(2).ReadU16();
    var prefix := dv.Add(4).ReadString(4);
    var u64 :- dv.Add(8).ReadU64();
    var serial := Decimal(u64);
    var suffix := dv.Add(16).ReadString((length as int) - 16 + 4);
    return Ok(DevSerial(prefix, serial, suffix, u64, prefix + serial + suffix));
  }

  /** A PunchPkt as a camera builds it: four bytes for the prefix, eight for the serial
      number, and the rest, as counted by the length field, for the suffix. */
  function EncodePunch(prefix: string, serial: nat, suffix: string, width: nat): Chunk
    requires IsLatin1(prefix) && |prefix| <= 4 && IsLatin1(suffix) && |suffix| <= width
  {
    [0xF1, 0x41] + U16(12 + width) + EncodeLatin1(prefix) + Zeros(4 - |prefix|) + U64(serial)
    + EncodeLatin1(suffix) + Zeros(width - |suffix|)
  }

  predicate NoNul(s: string) {
    forall i :: 0 <= i < |s| ==> s[i] != 0 as char
  }

  lemma {:induction false} FieldReads(s: string, padding: nat)
    requires IsLatin1(s) && NoNul(s)
    ensures Latin1(UntilNul(EncodeLatin1(s) + Zeros(padding))) == s
  {
    UntilNulOfPadded(EncodeLatin1(s), Zeros(padding));
  }

  lemma {:induction false} U64ReadsBack(n: nat, d: Chunk, i: nat)
    requires n < 0x1_0000_0000_0000_0000 && i + 8 <= |d| && d[i..i + 8] == U64(n)
    ensures BE64(d, i) == n
  {
    var hi, lo := n / 0x1_0000_0000, n % 0x1_0000_0000;
    assert d[i..i + 4] == d[i..i + 8][..4] == U32(hi);
    assert d[i + 4..i + 8] == d[i..i + 8][4..] == U32(n);
    U32ReadsBack(hi, d, i);
    U32Mod(hi, lo);
    U32ReadsBack(lo, d, i + 4);
  }

  lemma {:induction false} U32ReadsBack(n: nat, d: Chunk, i: nat)
    requires n < 0x1_0000_0000 && i + 4 <= |d| && d[i..i + 4] == U32(n)
    ensures BE32(d, i) == n
  {
    assert d[i..i + 2] == d[i..i + 4][..2] == U16(n / 0x1_0000);
    assert d[i + 2..i + 4] == d[i..i + 4][2..] == U16(n);
    ReadU16Field(d, i, n / 0x1_0000);
    ReadU16Field(d, i + 2, n);
    FitsU16(n / 0x1_0000);
  }

  /** What a camera announces is read back, and names it. */
  lemma {:induction false} PunchRoundTrip(prefix: string, serial: nat, suffix: string, width: nat)
    requires IsLatin1(prefix) && |prefix| <= 4 && NoNul(prefix) && serial < 0x1_0000_0000_0000_0000
    requires IsLatin1(suffix) && |suffix| <= width && NoNul(suffix) && 12 + width < 0x1_0000
    ensures var d := EncodePunch(prefix, serial, suffix, width);
            && 16 <= |d|
            && ParsedPunchPkt(d)
               == DevSerial(prefix, Decimal(serial), suffix, serial, prefix + Decimal(serial) + suffix)
  {
    hide U64, BE64, UntilNul, Latin1, EncodeLatin1, Decimal;
    var d := EncodePunch(prefix, serial, suffix, width);
    assert |EncodeLatin1(prefix)| == |prefix| && |EncodeLatin1(suffix)| == |suffix| && |U64(serial)| == 8 by {
      Sizes(prefix, serial);
      Sizes(suffix, serial);
    }
    assert d[2..4] == U16(12 + width);
    ReadU16Field(d, 2, 12 + width);
    FitsU16(12 + width);
    assert Slice(d, 4, 4) == EncodeLatin1(prefix) + Zeros(4 - |prefix|);
    FieldReads(prefix, 4 - |prefix|);
    assert d[8..16] == U64(serial);
    U64ReadsBack(serial, d, 8);
    assert Slice(d, 16, width) == EncodeLatin1(suffix) + Zeros(width - |suffix|);
    FieldReads(suffix, width - |suffix|);
  }

  lemma {:induction false} Sizes(s: string, n: nat)
    requires IsLatin1(s)
    ensures |EncodeLatin1(s)| == |s| && |U64(n)| == 8
  {
  }

  const P2P_RDY: nat := 0xF142
  const P2P_RDY_SIZE: nat := 0x14

  /** The 20 bytes that follow the header of a P2pRdy. */
  function ReadyBody(dev: DevSerial): Chunk
    requires IsLatin1(dev.prefix) && IsLatin1(dev.suffix)
  {
    var b := Splice(Zeros(P2P_RDY_SIZE), 0, EncodeLatin1(dev.prefix));
    var b := Splice(b, 4, U64(dev.serialU64));
    Slice(Splice(b, 12, EncodeLatin1(dev.suffix)), 0, P2P_RDY_SIZE)
  }

  /** The P2pRdy for a camera. */
  function ReadyPacket(dev: DevSerial): Chunk
    requires IsLatin1(dev.prefix) && IsLatin1(dev.suffix)
  {
    U16(P2P_RDY) + U16(P2P_RDY_SIZE) + ReadyBody(dev)
  }

  lemma {:induction false} ReadyIsNoCommand(dev: DevSerial)
    requires IsLatin1(dev.prefix) && IsLatin1(dev.suffix)
    ensures 2 <= |ReadyPacket(dev)| && BE16(ReadyPacket(dev), 0) == P2P_RDY
    ensures ReadyPacket(dev)[..4] == [0xF1, 0x42, 0x00, 0x14]
  {
    assert ReadyPacket(dev)[0..2] == U16(P2P_RDY);
    ReadU16Field(ReadyPacket(dev), 0, P2P_RDY);
  }

  method MakeP2pRdy(dev: DevSerial) returns (outbuf: DV)
    requires IsLatin1(dev.prefix) && IsLatin1(dev.suffix)
    ensures fresh(outbuf.buf) && outbuf.offset == 0
    ensures outbuf.buf.data == ReadyPacket(dev)
  {
    var inner := Alloc(P2P_RDY_SIZE);
    inner.WriteByteArray(EncodeLatin1(dev.prefix));
    inner.Add(4).WriteU64(dev.serialU64);
    inner.Add(12).WriteByteArray(EncodeLatin1(dev.suffix));
    outbuf := CreateP2pRdy(inner);
  }

  /** A body that is too short is padded with NULs, one that is too long is cropped. */
  method CreateP2pRdy(inbuf: DV) returns (outbuf: DV)
    ensures fresh(outbuf.buf) && outbuf.offset == 0
    ensures var body := inbuf.ReadByteArray(P2P_RDY_SIZE);
            outbuf.buf.data == U16(P2P_RDY) + U16(P2P_RDY_SIZE) + body + Zeros(P2P_RDY_SIZE - |body|)
  {
    outbuf := Alloc(P2P_RDY_SIZE + 4);
    assert [] + Zeros(24) == Zeros(24);
    AppendU16(outbuf, [], P2P_RDY);
    ghost var done := [] + U16(P2P_RDY);
    AppendU16(outbuf.Add(2), done, P2P_RDY_SIZE);
    done := done + U16(P2P_RDY_SIZE);
    WriteBehind(done, P2P_RDY_SIZE, inbuf.ReadByteArray(P2P_RDY_SIZE));
    outbuf.Add(4).WriteByteArray(inbuf.ReadByteArray(P2P_RDY_SIZE));
  }

  /** A string field whose bytes after the first NUL are all NUL. */
  predicate ZeroPadded(f: Chunk) {
    f == UntilNul(f) + Zeros(|f| - |UntilNul(f)|)
  }

  lemma {:induction false} Latin1Inverse(s: Chunk)
    ensures IsLatin1(Latin1(s)) && EncodeLatin1(Latin1(s)) == s
  {
  }

  /** The body for a parsed packet: its own fields, re-padded with NULs. */
  lemma {:induction false} BodyOfParsed(d: Chunk)
    requires |d| == 24 && BE16(d, 2) == 0x14
    ensures var dev := ParsedPunchPkt(d);
            && IsLatin1(dev.prefix) && IsLatin1(dev.suffix)
            && ReadyBody(dev) == UntilNul(d[4..8]) + Zeros(4 - |UntilNul(d[4..8])|) + d[8..16]
                                 + UntilNul(d[16..24]) + Zeros(8 - |UntilNul(d[16..24])|)
  {
    hide Decimal, DevId, U64, BE64, UntilNul, Splice;
    var p, s := UntilNul(d[4..8]), UntilNul(d[16..24]);
    assert Slice(d, 4, 4) == d[4..8] && Slice(d, 16, 8) == d[16..24];
    Latin1Inverse(p);
    Latin1Inverse(s);
    U64OfBE64(d, 8);
    BodyFields(p, d[8..16], s);
  }

  lemma {:induction false} BodyFields(p: Chunk, n: Chunk, s: Chunk)
    requires |p| <= 4 && |n| == 8 && |s| <= 8
    ensures Slice(Splice(Splice(Splice(Zeros(P2P_RDY_SIZE), 0, p), 4, n), 12, s), 0, P2P_RDY_SIZE)
            == p + Zeros(4 - |p|) + n + s + Zeros(8 - |s|)
  {
    assert Splice(Zeros(P2P_RDY_SIZE), 0, p) == p + Zeros(4 - |p|) + Zeros(16);
    var head := p + Zeros(4 - |p|);
    assert Splice(head + Zeros(16), 4, n) == head + n + Zeros(8);
    assert Splice(head + n + Zeros(8), 12, s) == head + n + s + Zeros(8 - |s|);
  }

  /** The P2pRdy echoes bytes 4 to 23 of the PunchPkt, whatever the length of the prefix,
      exactly if both string fields are padded with NULs. */
  lemma {:induction false} ReadyEchoesIff(d: Chunk)
    requires |d| == 24 && BE16(d, 2) == 0x14
    ensures var dev := ParsedPunchPkt(d);
            && IsLatin1(dev.prefix) && IsLatin1(dev.suffix)
            && (ReadyBody(dev) == d[4..] <==> ZeroPadded(d[4..8]) && ZeroPadded(d[16..24]))
  {
    hide ReadyBody, ParsedPunchPkt;
    BodyOfParsed(d);
    var p, s := UntilNul(d[4..8]), UntilNul(d[16..24]);
    var f, g := p + Zeros(4 - |p|), s + Zeros(8 - |s|);
    var body := ReadyBody(ParsedPunchPkt(d));
    assert body == f + d[8..16] + g;
    assert d[4..] == d[4..8] + d[8..16] + d[16..24];
    if body == d[4..] {
      assert f == body[..4] && d[4..8] == d[4..][..4];
      assert g == body[12..] && d[16..24] == d[4..][12..];
    }
  }
}
