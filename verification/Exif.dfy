/** cam_reverse/exif.py, and `_assemble_frame` of cam_reverse/http_server.py:51-58: the
    orientation of a camera is served as an EXIF segment put into the JPEG (ITU-T T.81
    section B.2.4.6; TIFF 6.0 section 2). */
module Exif {
  import opened Bytes
  import opened FrameAssembler
  import opened Orientations

  const TIFF_HEADER: Chunk := [0x49, 0x49, 0x2A, 0x00, 0x08, 0x00, 0x00, 0x00]
  const EXIF_SIGNATURE: Chunk := [0x45, 0x78, 0x69, 0x66, 0x00, 0x00]
  const SOI_END: nat := 2

  function CreateExifOrientation(orientation: nat): (seg: Chunk) {
    var entry := [0x01, 0x00] + [0x12, 0x01, 0x03, 0x00, 0x01, 0x00, 0x00, 0x00]
                 + [orientation % 0x100] + [0x00, 0x00] + [0x00, 0x00, 0x00, 0x00, 0x00];
    var data := EXIF_SIGNATURE + TIFF_HEADER + entry;
    [0xFF, 0xE1] + U16(|data| + 2) + data
  }

  predicate ExifAt(s: Chunk, i: nat) {
    i + 1 < |s| && s[i] == 0xFF && s[i + 1] == 0xE1
  }

  /** `FFE1` occurs somewhere. */
  predicate HasExif(s: Chunk) {
    exists i :: 0 <= i < |s| && ExifAt(s, i)
  }

  function AddExifToJpeg(jpeg: Chunk, seg: Chunk): Result<Chunk> {
    if HasExif(jpeg) then Raise(ValueError)
    else Ok(Slice(jpeg, 0, SOI_END) + seg + Slice(jpeg, SOI_END, |jpeg|))
  }

  const O_MAP: seq<nat> := [1, 8, 3, 6]
  const O_MAP_MIRROR: seq<nat> := [2, 7, 4, 5]

  /** An index into the lists of orientations; a negative one counts from the end. */
  predicate KnownRotation(rotate: int) {
    -4 <= rotate < 4
  }

  function Orientation(rotate: int, mirror: bool): (o: nat)
    requires KnownRotation(rotate)
    ensures 1 <= o <= 8
  {
    var i := if rotate < 0 then rotate + 4 else rotate;
    if mirror then O_MAP_MIRROR[i] else O_MAP[i]
  }

  /** What the lists of orientations say: `rotate` quarter turns to the left, then the
      mirror, if it is on.  A negative rotation turns as far to the right. */
  lemma {:induction false} OrientationObeys(rotate: int, mirror: bool)
    requires KnownRotation(rotate)
    ensures Obeys(Orientation(rotate, mirror), rotate % 4, mirror)
  {
    var k := rotate % 4;
    forall p: Place
      ensures Shown(Orientation(rotate, mirror), p) == Wanted(p, k, mirror)
    {
      assert k >= 1 ==> Turned(p, k) == TurnedLeft(Turned(p, k - 1));
      assert k >= 2 ==> Turned(p, k - 1) == TurnedLeft(Turned(p, k - 2));
      assert k >= 3 ==> Turned(p, k - 2) == TurnedLeft(Turned(p, k - 3));
    }
  }

  /** The image as served.  An image is never emitted empty. */
  function AssembleFrame(image: Image, rotate: int, mirror: bool): Result<Chunk>
    requires image != []
  {
    if !KnownRotation(rotate) then Raise(IndexError)
    else
      var header :- AddExifToJpeg(image[0], CreateExifOrientation(Orientation(rotate, mirror)));
      Ok(header + Join(image[1..]))
  }

  /** The orientation entry that a reader finds: the APP1 segment directly behind SOI, its
      TIFF header, the first directory, its one entry. */
  function ReadOrientation(s: Chunk): Option<nat> {
    if |s| >= 38 && ExifAt(s, 2) && BE16(s, 4) == 34 && s[6..12] == EXIF_SIGNATURE && s[12..20] == TIFF_HEADER
       && LE32(s, 16) == 8 && LE16(s, 12 + 8) == 1
       && LE16(s, 22) == 0x0112 && LE16(s, 24) == 3 && LE32(s, 26) == 1
    then Some(LE16(s, 30))
    else None
  }

  /** The segment: 36 bytes whose length field counts all but its marker. */
  lemma {:induction false} SegmentShape(o: nat)
    requires o < 0x100
    ensures var s := CreateExifOrientation(o);
            && |s| == 36 && ExifAt(s, 0) && BE16(s, 2) == |s| - 2
            && forall head: Chunk, tail: Chunk :: |head| == 2 ==> ReadOrientation(head + s + tail) == Some(o)
  {
    var s := CreateExifOrientation(o);
    forall head: Chunk, tail: Chunk | |head| == 2
      ensures ReadOrientation(head + s + tail) == Some(o)
    {
      SegmentReadsBack(head, s, tail, o);
    }
  }

  lemma {:induction false} SegmentReadsBack(head: Chunk, s: Chunk, tail: Chunk, o: nat)
    requires |head| == 2 && o < 0x100 && s == CreateExifOrientation(o)
    ensures ReadOrientation(head + s + tail) == Some(o)
  {
    var d := head + s + tail;
    assert d[6..12] == s[4..10] == EXIF_SIGNATURE;
    assert d[12..20] == s[10..18] == TIFF_HEADER;
  }

  /** `d` is `joined` with one APP1 segment behind its first two bytes: it is the first
      `FFE1` in `d`, its length field is right, a reader finds the orientation in it, and
      without it `joined` is back. */
  predicate ServedWith(d: Chunk, joined: Chunk, o: nat) {
    && 38 <= |d| == |joined| + 36
    && d[..2] + d[38..] == joined
    && ExifAt(d, 2) && !ExifAt(d, 0) && !ExifAt(d, 1)
    && BE16(d, 4) == 34
    && ReadOrientation(d) == Some(o)
  }

  /** A segment inserted behind two bytes that are no marker. */
  lemma {:induction false} Inserted(head: Chunk, tail: Chunk, o: nat)
    requires |head| == 2 && !ExifAt(head, 0) && o < 0x100
    ensures ServedWith(head + CreateExifOrientation(o) + tail, head + tail, o)
  {
    var seg := CreateExifOrientation(o);
    var d := head + seg + tail;
    SegmentShape(o);
    assert d[..2] == head && d[38..] == tail;
    assert d[0] == head[0] && d[1] == head[1] && d[2] == seg[0] && d[3] == seg[1];
    assert d[4] == seg[2] && d[5] == seg[3];
  }

  lemma {:induction false} PutBehindSoi(first: Chunk, seg: Chunk, rest: Chunk)
    requires |first| >= 2
    ensures Slice(first, 0, SOI_END) + seg + Slice(first, SOI_END, |first|) + rest
            == first[..2] + seg + (first[2..] + rest)
    ensures first + rest == first[..2] + (first[2..] + rest)
  {
  }

  /** With a first chunk too short for SOI the segment is not where a reader looks for it. */
  lemma {:induction false} ShortFirstChunk(first: Chunk, o: nat, rest: Chunk)
    requires |first| < 2 && o < 0x100
    ensures var d := Slice(first, 0, SOI_END) + CreateExifOrientation(o) + Slice(first, SOI_END, |first|) + rest;
            !ServedWith(d, first + rest, o)
  {
    var seg := CreateExifOrientation(o);
    var d := Slice(first, 0, SOI_END) + seg + Slice(first, SOI_END, |first|) + rest;
    SegmentShape(o);
    assert Slice(first, 0, SOI_END) == first && Slice(first, SOI_END, |first|) == [];
    assert d[|first|] == seg[0] && d[|first| + 1] == seg[1];
  }

  /** Main result: serving succeeds exactly if the rotation is known and the first chunk
      has no `FFE1`; the served bytes are then the joined image with the segment for the
      configured orientation behind its first two bytes, if and only if the first chunk has
      these two bytes, and a reader that obeys it turns and mirrors the picture as configured. */
  lemma {:induction false} ServedImage(image: Image, rotate: int, mirror: bool)
    requires image != []
    ensures var r := AssembleFrame(image, rotate, mirror);
            && (r.Ok? <==> KnownRotation(rotate) && !HasExif(image[0]))
            && (r.Ok? ==> (ServedWith(r.value, Join(image), Orientation(rotate, mirror)) <==> 2 <= |image[0]|))
            && (r.Ok? && 2 <= |image[0]| ==>
                  ReadOrientation(r.value).Some? && Obeys(ReadOrientation(r.value).value, rotate % 4, mirror))
  {
    if KnownRotation(rotate) && !HasExif(image[0]) {
      var o := Orientation(rotate, mirror);
      OrientationObeys(rotate, mirror);
      if |image[0]| < 2 {
        ShortFirstChunk(image[0], o, Join(image[1..]));
      } else {
        assert !ExifAt(image[0], 0);
        Inserted(image[0][..2], image[0][2..] + Join(image[1..]), o);
        PutBehindSoi(image[0], CreateExifOrientation(o), Join(image[1..]));
      }
    }
  }
}
