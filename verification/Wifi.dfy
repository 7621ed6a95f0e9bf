/** The Wi-Fi listing: `parse_list_wifi` of cam_reverse/handlers.py:95-117, and its inverse. */
module Wifi {
  import opened Bytes
  import opened DataView

  const RECORD_LEN: nat := 0x5C
  const FIRST_RECORD: nat := 0x14

  datatype WifiListItem =
    WifiListItem(ssid: string, mac: Chunk, security: nat, dbm0: nat, dbm1: nat, mode: nat, channel: nat)

  /** One record of the listing.  The MAC is kept as its six bytes. */
  function ParseRecord(r: Chunk): WifiListItem
    requires |r| == RECORD_LEN
  {
    WifiListItem(Latin1(UntilNul(r[..0x40])), r[0x40..0x46],
                 LE32(r, 0x48), LE32(r, 0x4C), LE32(r, 0x50), LE32(r, 0x54), LE32(r, 0x58))
  }

  /** Record `k` of the datagram. */
  function Record(d: Chunk, k: nat): (r: Chunk)
    requires FIRST_RECORD + RECORD_LEN * (k + 1) <= |d|
    ensures |r| == RECORD_LEN
  {
    d[FIRST_RECORD + RECORD_LEN * k..FIRST_RECORD + RECORD_LEN * (k + 1)]
  }

  /** How many records are read: as announced, or as many as are there in full. */
  function RecordCount(d: Chunk): (n: nat)
    requires 20 <= |d|
    ensures FIRST_RECORD + RECORD_LEN * n <= |d|
    ensures n <= LE32(d, 16)
    ensures n < LE32(d, 16) ==> |d| < FIRST_RECORD + RECORD_LEN * (n + 1)
  {
    Min(LE32(d, 16), (|d| - 20) / RECORD_LEN)
  }

  /** The items of a listing. */
  function Items(d: Chunk): (items: seq<WifiListItem>)
    requires 20 <= |d|
  {
    seq(RecordCount(d), k requires 0 <= k < RecordCount(d) =>
      (assert RECORD_LEN * (k + 1) <= RECORD_LEN * RecordCount(d); ParseRecord(Record(d, k))))
  }

  method ParseListWifi(dv: DV) returns (r: Result<seq<WifiListItem>>)
    requires dv.offset == 0
    ensures r.Ok? <==> 20 <= |dv.buf.data|
    ensures r.Ok? ==> r.value == Items(dv.buf.data)
  {
    var d := dv.buf.data;
    var msgCount :- dv.Add(0x10).ReadU32LE();
    var startat := FIRST_RECORD;
    var items: seq<WifiListItem> := [];
    for i := 0 to msgCount
      invariant i == |items| && startat == FIRST_RECORD + RECORD_LEN * i <= |d|
      invariant forall k :: 0 <= k < |items| ==>
        FIRST_RECORD + RECORD_LEN * (k + 1) <= |d| && items[k] == ParseRecord(Record(d, k))
    {
      if startat + RECORD_LEN > dv.ByteLength() {
        break;
      }
      var item := ReadRecord(dv.Add(startat));
      assert Record(d, i) == d[startat..startat + RECORD_LEN];
      startat := startat + RECORD_LEN;
      items := items + [item];
    }
    return Ok(items);
  }

  method ReadRecord(dv: DV) returns (item: WifiListItem)
    requires dv.offset + RECORD_LEN <= |dv.buf.data|
    ensures item == ParseRecord(dv.buf.data[dv.offset..dv.offset + RECORD_LEN])
  {
    var mac := dv.Add(0x40).ReadByteArray(6);
    var security := dv.Add(0x48).ReadU32LE();
    var dbm0 := dv.Add(0x4C).ReadU32LE();
    var dbm1 := dv.Add(0x50).ReadU32LE();
    var mode := dv.Add(0x54).ReadU32LE();
    var channel := dv.Add(0x58).ReadU32LE();
    item := WifiListItem(dv.ReadString(0x40), mac, security.value, dbm0.value, dbm1.value, mode.value, channel.value);
    RecordFields(dv.buf.data, dv.offset);
  }

  /** The fields of the record at `at`, in the datagram and in the record. */
  lemma {:induction false} RecordFields(d: Chunk, at: nat)
    requires at + RECORD_LEN <= |d|
    ensures var r := d[at..at + RECORD_LEN];
            && r[..0x40] == d[at..at + 0x40] && r[0x40..0x46] == d[at + 0x40..at + 0x46]
            && LE32(r, 0x48) == LE32(d, at + 0x48) && LE32(r, 0x4C) == LE32(d, at + 0x4C)
            && LE32(r, 0x50) == LE32(d, at + 0x50) && LE32(r, 0x54) == LE32(d, at + 0x54)
            && LE32(r, 0x58) == LE32(d, at + 0x58)
  {
    SliceOfSlice(d, at, at + RECORD_LEN, 0, 0x40);
    SliceOfSlice(d, at, at + RECORD_LEN, 0x40, 0x46);
  }

  // -- the listing, written and read back -------------------------------------------

  predicate ValidItem(i: WifiListItem) {
    && IsLatin1(i.ssid) && |i.ssid| <= 0x40 && (forall k :: 0 <= k < |i.ssid| ==> i.ssid[k] != 0 as char)
    && |i.mac| == 6
    && i.security < 0x1_0000_0000 && i.dbm0 < 0x1_0000_0000 && i.dbm1 < 0x1_0000_0000
    && i.mode < 0x1_0000_0000 && i.channel < 0x1_0000_0000
  }

  /** A field of fixed width, padded with NULs. */
  function Pad(s: Chunk, width: nat): (p: Chunk)
    requires |s| <= width
    ensures |p| == width
  {
    s + Zeros(width - |s|)
  }

  function EncodeRecord(i: WifiListItem): (r: Chunk)
    requires ValidItem(i)
    ensures |r| == RECORD_LEN
  {
    Pad(EncodeLatin1(i.ssid), 0x40) + i.mac + [0, 0]
    + U32LE(i.security) + U32LE(i.dbm0) + U32LE(i.dbm1) + U32LE(i.mode) + U32LE(i.channel)
  }

  function EncodeRecords(items: seq<WifiListItem>): (r: Chunk)
    requires forall i :: 0 <= i < |items| ==> ValidItem(items[i])
    ensures |r| == RECORD_LEN * |items|
  {
    if items == [] then [] else EncodeRecords(items[..|items| - 1]) + EncodeRecord(items[|items| - 1])
  }

  function EncodeListing(header: Chunk, items: seq<WifiListItem>): Chunk
    requires |header| == 16 && forall i :: 0 <= i < |items| ==> ValidItem(items[i])
  {
    header + U32LE(|items|) + EncodeRecords(items)
  }

  lemma {:induction false} Latin1RoundTrip(s: string)
    requires IsLatin1(s)
    ensures Latin1(EncodeLatin1(s)) == s
  {
  }

  lemma {:induction false} PaddedStringReadsBack(s: string, width: nat, field: Chunk)
    requires IsLatin1(s) && |s| <= width && (forall k :: 0 <= k < |s| ==> s[k] != 0 as char)
    requires field == Pad(EncodeLatin1(s), width)
    ensures Latin1(UntilNul(field)) == s
  {
    UntilNulOfPadded(EncodeLatin1(s), Zeros(width - |s|));
    Latin1RoundTrip(s);
  }

  lemma {:induction false} ReadU32LEField(s: Chunk, i: nat, v: nat)
    requires i + 4 <= |s| && s[i..i + 4] == U32LE(v) && v < 0x1_0000_0000
    ensures LE32(s, i) == v
  {
    SliceOfSlice(s, i, i + 4, 0, 2);
    SliceOfSlice(s, i, i + 4, 2, 4);
    ReadU16LEField(s, i, v);
    ReadU16LEField(s, i + 2, v / 0x1_0000);
  }

  lemma {:induction false} RecordReadsBack(i: WifiListItem)
    requires ValidItem(i)
    ensures ParseRecord(EncodeRecord(i)) == i
  {
    var r := EncodeRecord(i);
    assert r[..0x40] == Pad(EncodeLatin1(i.ssid), 0x40);
    PaddedStringReadsBack(i.ssid, 0x40, r[..0x40]);
    assert r[0x40..0x46] == i.mac;
    var head := Pad(EncodeLatin1(i.ssid), 0x40) + i.mac + [0, 0];
    NumbersReadBack(head, r, i.security, i.dbm0, i.dbm1, i.mode, i.channel);
  }

  lemma {:induction false} NumbersReadBack(head: Chunk, r: Chunk, a: nat, b: nat, c: nat, d: nat, e: nat)
    requires |head| == 0x48 && r == head + U32LE(a) + U32LE(b) + U32LE(c) + U32LE(d) + U32LE(e)
    requires a < 0x1_0000_0000 && b < 0x1_0000_0000 && c < 0x1_0000_0000 && d < 0x1_0000_0000 && e < 0x1_0000_0000
    ensures LE32(r, 0x48) == a && LE32(r, 0x4C) == b && LE32(r, 0x50) == c && LE32(r, 0x54) == d && LE32(r, 0x58) == e
  {
    assert r[0x48..0x4C] == U32LE(a);
    assert r[0x4C..0x50] == U32LE(b);
    assert r[0x50..0x54] == U32LE(c);
    assert r[0x54..0x58] == U32LE(d);
    assert r[0x58..0x5C] == U32LE(e);
    ReadU32LEField(r, 0x48, a);
    ReadU32LEField(r, 0x4C, b);
    ReadU32LEField(r, 0x50, c);
    ReadU32LEField(r, 0x54, d);
    ReadU32LEField(r, 0x58, e);
  }

  lemma {:induction false} RecordAt(items: seq<WifiListItem>, k: nat)
    requires forall i :: 0 <= i < |items| ==> ValidItem(items[i])
    requires k < |items|
    ensures EncodeRecords(items)[RECORD_LEN * k..RECORD_LEN * (k + 1)] == EncodeRecord(items[k])
  {
    var n := |items| - 1;
    if k < n {
      RecordAt(items[..n], k);
      var before := EncodeRecords(items[..n]);
      assert EncodeRecords(items)[..RECORD_LEN * n] == before;
      assert EncodeRecords(items)[RECORD_LEN * k..RECORD_LEN * (k + 1)] == before[RECORD_LEN * k..RECORD_LEN * (k + 1)];
    }
  }

  lemma {:induction false} ListingCount(d: Chunk, n: nat, records: Chunk)
    requires 20 <= |d| && d[16..20] == U32LE(n) && n < 0x1_0000_0000
    requires |records| == RECORD_LEN * n && d[20..] == records
    ensures RecordCount(d) == n
  {
    ReadU32LEField(d, 16, n);
  }

  lemma {:induction false} RecordOfTail(d: Chunk, k: nat)
    requires 20 <= |d| && RECORD_LEN * (k + 1) <= |d[20..]|
    ensures FIRST_RECORD + RECORD_LEN * (k + 1) <= |d|
    ensures Record(d, k) == d[20..][RECORD_LEN * k..RECORD_LEN * (k + 1)]
  {
    var lo, hi := RECORD_LEN * k, RECORD_LEN * (k + 1);
    SliceOfSlice(d, 20, |d|, lo, hi);
    assert d[20..] == d[20..|d|];
  }

  lemma {:induction false} ListingRecord(d: Chunk, items: seq<WifiListItem>, k: nat)
    requires forall i :: 0 <= i < |items| ==> ValidItem(items[i])
    requires 20 <= |d| && d[20..] == EncodeRecords(items) && k < |items|
    ensures FIRST_RECORD + RECORD_LEN * (k + 1) <= |d|
    ensures ParseRecord(Record(d, k)) == items[k]
  {
    RecordAt(items, k);
    RecordReadsBack(items[k]);
    RecordOfTail(d, k);
  }

  /** What `ParseListWifi` returns for an encoded listing: its items, in order. */
  lemma {:induction false} ListingRoundTrip(header: Chunk, items: seq<WifiListItem>)
    requires |header| == 16 && |items| < 0x1_0000_0000 && forall i :: 0 <= i < |items| ==> ValidItem(items[i])
    ensures Items(EncodeListing(header, items)) == items
  {
    var d := EncodeListing(header, items);
    assert d[16..20] == U32LE(|items|) && d[20..] == EncodeRecords(items);
    ListingCount(d, |items|, EncodeRecords(items));
    forall k | 0 <= k < |items|
      ensures Items(d)[k] == items[k]
    {
      ListingRecord(d, items, k);
    }
  }

  /** Two datagrams, of any lengths and announcing any counts, that agree on the 92 bytes of
      a record which both of them deliver, deliver the same item there. */
  lemma {:induction false} ItemsAreIndependent(d: Chunk, d': Chunk, k: nat)
    requires 20 <= |d| && 20 <= |d'| && k < |Items(d)| && k < |Items(d')|
    requires Slice(d, FIRST_RECORD + RECORD_LEN * k, RECORD_LEN) == Slice(d', FIRST_RECORD + RECORD_LEN * k, RECORD_LEN)
    ensures Items(d)[k] == Items(d')[k]
  {
    assert RECORD_LEN * (k + 1) <= RECORD_LEN * RecordCount(d) && RECORD_LEN * (k + 1) <= RECORD_LEN * RecordCount(d');
    assert Record(d, k) == Slice(d, FIRST_RECORD + RECORD_LEN * k, RECORD_LEN);
    assert Record(d', k) == Slice(d', FIRST_RECORD + RECORD_LEN * k, RECORD_LEN);
  }
}
