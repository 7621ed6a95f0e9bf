/** The JPEG frame assembler of cam_reverse/handlers.py:202-286 as a function of its four
    state fields and one received datagram.  `Handlers.DealWithData` is proved to compute
    it; the properties of whole runs are proved about it. */
module FrameAssembler {
  import opened Bytes
  import opened RestartMarkers

  const FRAME_HEADER: Chunk := [0x55, 0xAA, 0x15, 0xA8]
  const JPEG_HEADER: Chunk := [0xFF, 0xD8, 0xFF, 0xDB]
  const STREAM_TYPE_AUDIO: Byte := 0x06
  const STREAM_TYPE_JPEG: Byte := 0x03

  /** What a data datagram asks of the assembler. */
  datatype Input =
    | Malformed                             // reading it raises
    | Ignored                               // short, empty or of another stream type
    | Audio(sound: Chunk)
    | Start(id: nat, data: Chunk)           // framed or raw first chunk of an image
    | Continuation(id: nat, data: Chunk)
  {
    predicate IsVideo() {
      Start? || Continuation?
    }
  }

  function Classify(d: Chunk): (i: Input)
    ensures i.IsVideo() ==> i.id < 0x1_0000
  {
    if |d| < 4 then Malformed
    else
      var pktLen := BE16(d, 2);
      if pktLen < 12 then Ignored
      else if |d| < 8 then Malformed
      else
        var hdr, id := Slice(d, 8, 4), BE16(d, 6);
        if hdr == FRAME_HEADER then
          if |d| < 13 then Malformed
          else if d[12] == STREAM_TYPE_AUDIO then
            if |d| < 26 then Malformed else Audio(Slice(d, 40, LE16(d, 24)))
          else if d[12] == STREAM_TYPE_JPEG && pktLen - 36 > 0 then Start(id, Slice(d, 40, pktLen - 36))
          else Ignored
        else if hdr == JPEG_HEADER then Start(id, Slice(d, 8, pktLen - 4))
        else Continuation(id, Slice(d, 8, pktLen - 4))
  }

  /** An image is the list of its chunks, as `cur_image` is. */
  type Image = seq<Chunk>

  function Join(image: Image): Chunk {
    if image == [] then [] else image[0] + Join(image[1..])
  }

  datatype Asm = Asm(curImage: Image, rcvSeqId: nat, frameIsBad: bool, frameWasFixed: bool)

  const INITIAL := Asm([], 0, false, false)

  datatype Outcome = Outcome(asm: Asm, emitted: seq<Image>)

  /** One input, and whether the listener that the emission reaches raises. */
  datatype Event = Event(input: Input, raises: bool)

  predicate Emits(st: Asm, i: Input) {
    i.Start? && st.curImage != [] && !st.frameIsBad
  }

  /** The next packet of the current image. */
  predicate InOrder(st: Asm, i: Input) {
    i.Continuation? && i.id == st.rcvSeqId + 1
  }

  predicate Gap(st: Asm, i: Input) {
    i.Continuation? && i.id > st.rcvSeqId + 1
  }

  /** A gap that can be repaired at restart markers. */
  predicate Repairable(st: Asm, i: Input) {
    Gap(st, i) && |st.curImage| > 1
    && Markers(st.curImage[|st.curImage| - 1]) != [] && Markers(i.data) != []
  }

  /** A raising listener is reached before the fields are reset, so it keeps the old frame. */
  function Deliver(st: Asm, e: Event, fix: bool): Outcome {
    var i := e.input;
    if i.Start? then
      var emitted := if Emits(st, i) then [st.curImage] else [];
      if Emits(st, i) && e.raises then Outcome(st, emitted)
      else Outcome(Asm([i.data], i.id, false, false), emitted)
    else if InOrder(st, i) then
      Outcome(st.(curImage := st.curImage + [i.data], rcvSeqId := i.id), [])
    else if fix && Repairable(st, i) then
      var n := |st.curImage| - 1;
      Outcome(Asm(st.curImage[..n] + [CutLeft(st.curImage[n]), CutRight(i.data)], i.id, false, true), [])
    else if Gap(st, i) then
      Outcome(st.(frameIsBad := true), [])
    else
      Outcome(st, [])
  }

  /** A run: the state after all events, and everything emitted on the way. */
  function Run(st: Asm, evs: seq<Event>, fix: bool): Outcome {
    if evs == [] then Outcome(st, [])
    else
      var before := Run(st, evs[..|evs| - 1], fix);
      var o := Deliver(before.asm, evs[|evs| - 1], fix);
      Outcome(o.asm, before.emitted + o.emitted)
  }

  lemma {:induction false} RunConcat(st: Asm, a: seq<Event>, b: seq<Event>, fix: bool)
    ensures Run(st, a + b, fix).asm == Run(Run(st, a, fix).asm, b, fix).asm
    ensures Run(st, a + b, fix).emitted == Run(st, a, fix).emitted + Run(Run(st, a, fix).asm, b, fix).emitted
  {
    hide Deliver;
    if b == [] {
      assert a + b == a;
    } else {
      var n := |b| - 1;
      RunConcat(st, a, b[..n], fix);
      assert (a + b)[..|a| + n] == a + b[..n];
    }
  }
}
