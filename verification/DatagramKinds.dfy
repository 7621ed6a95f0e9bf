/** What a data datagram is, told from its bytes alone: offsets and values are those of the
    wire, not those of `Classify`. */
module DatagramKinds {
  import opened Bytes
  import opened FrameAssembler

  /** A payload of at least eight bytes: the length field counts it and four bytes more. */
  predicate HasPayload(d: Chunk) {
    8 <= |d| && 12 <= BE16(d, 2)
  }

  /** The payload begins with a stream header. */
  predicate IsFramed(d: Chunk) {
    12 <= |d| && d[8..12] == [0x55, 0xAA, 0x15, 0xA8]
  }

  /** The payload begins as a JPEG image does. */
  predicate IsRawJpeg(d: Chunk) {
    12 <= |d| && d[8..12] == [0xFF, 0xD8, 0xFF, 0xDB]
  }

  /** The beginning of an image: stream type 3 with something behind the 32-byte stream
      header, or a raw image. */
  predicate BeginsImage(d: Chunk) {
    HasPayload(d) && ((IsFramed(d) && 13 <= |d| && d[12] == 3 && 37 <= BE16(d, 2)) || IsRawJpeg(d))
  }

  predicate ContinuesImage(d: Chunk) {
    HasPayload(d) && !IsFramed(d) && !IsRawJpeg(d)
  }

  predicate CarriesVideo(d: Chunk) {
    BeginsImage(d) || ContinuesImage(d)
  }

  /** The bytes from `from` to where the length field says the datagram ends, or to where
      it does end. */
  function Cropped(d: Chunk, from: nat): Chunk
    requires 4 <= |d|
  {
    var end := Min(BE16(d, 2) + 4, |d|);
    if from <= end then d[from..end] else []
  }

  /** What is taken out of a datagram with video: id and bytes. */
  lemma {:induction false} VideoByBytes(d: Chunk)
    requires CarriesVideo(d)
    ensures BeginsImage(d) ==> Classify(d) == Start(BE16(d, 6), Cropped(d, if IsFramed(d) then 40 else 8))
    ensures ContinuesImage(d) ==> Classify(d) == Continuation(BE16(d, 6), Cropped(d, 8))
  {
    if 12 <= |d| {
      assert Slice(d, 8, 4) == d[8..12];
    }
  }

  /** Anything else leaves the image alone and emits none, whatever listeners do. */
  lemma {:induction false} OthersAreNoVideo(d: Chunk, st: Asm, raises: bool, fix: bool)
    requires !CarriesVideo(d)
    ensures !Classify(d).IsVideo()
    ensures Deliver(st, Event(Classify(d), raises), fix) == Outcome(st, [])
  {
    if 12 <= |d| {
      assert Slice(d, 8, 4) == d[8..12];
    }
  }

  lemma {:induction false} VideoIff(d: Chunk)
    ensures Classify(d).IsVideo() <==> CarriesVideo(d)
  {
    if CarriesVideo(d) {
      VideoByBytes(d);
    } else {
      OthersAreNoVideo(d, INITIAL, false, false);
    }
  }

  /** Sound: stream type 6, with a length at byte 24 and the sound from byte 40 on. */
  predicate IsSound(d: Chunk) {
    HasPayload(d) && IsFramed(d) && 26 <= |d| && d[12] == 6
  }

  /** A datagram with sound hands the sound to its listener and is no video; neither is one
      with a short payload, another stream type, or a stream header and no image behind it. */
  lemma {:induction false} SoundAndOthers(d: Chunk, st: Asm, raises: bool, fix: bool)
    ensures IsSound(d) ==> Classify(d) == Audio(Slice(d, 40, d[25] as int * 0x100 + d[24] as int))
    ensures IsSound(d)
            || (4 <= |d| && BE16(d, 2) < 12)
            || (IsFramed(d) && 13 <= |d| && d[12] != 3)
            || (IsFramed(d) && 13 <= |d| && BE16(d, 2) <= 36)
            ==> Deliver(st, Event(Classify(d), raises), fix) == Outcome(st, [])
  {
    if IsFramed(d) {
      assert Slice(d, 8, 4) == d[8..12];
    }
    if !CarriesVideo(d) {
      OthersAreNoVideo(d, st, raises, fix);
    }
  }

  /** Reading a data datagram raises exactly if a field that is looked at is not there. */
  predicate LacksField(d: Chunk) {
    || |d| < 4
    || (12 <= BE16(d, 2) && |d| < 8)
    || (HasPayload(d) && IsFramed(d) && (|d| < 13 || (d[12] == 6 && |d| < 26)))
  }

  lemma {:induction false} MalformedIff(d: Chunk)
    ensures Classify(d).Malformed? <==> LacksField(d)
  {
    if 12 <= |d| {
      assert Slice(d, 8, 4) == d[8..12];
    }
  }
}
