/** Frames fragmented into datagrams and delivered in order come out as they went in. */
module AssemblerRoundTrip {
  import opened Bytes
  import opened FrameAssembler
  import opened DatagramKinds

  /** One frame as the camera sends it: its first chunk behind a 32-byte stream header, or
      raw, then the continuations, with consecutive ids from `id` on. */
  datatype Frame = Frame(id: nat, header: Option<Chunk>, first: Chunk, rest: seq<Chunk>) {

    predicate Valid() {
      && id < 0x1_0000
      && (match header
          case Some(h) => |h| == 32 && h[..4] == FRAME_HEADER && h[4] == STREAM_TYPE_JPEG && 1 <= |first|
          case None => 8 <= |first| && first[..4] == JPEG_HEADER)
      && |first| + 36 < 0x1_0000
      && forall k :: 0 <= k < |rest| ==> ValidContinuation(rest[k])
    }

    /** The id of the `k`-th continuation, counted from 1, on 16 bits. */
    function IdAt(k: nat): nat {
      (id + k) % 0x1_0000
    }

    function Chunks(): Image {
      [first] + rest
    }

    function Datagrams(): seq<Chunk> {
      [Drw(id, if header.Some? then header.value + first else first)]
      + seq(|rest|, k requires 0 <= k < |rest| => Drw(IdAt(k + 1), rest[k]))
    }

    /** How many chunks come before the ids wrap, at most all of them. */
    function ChunksBeforeWrap(): nat
      requires id < 0x1_0000
    {
      Min(1 + |rest|, 0x1_0000 - id)
    }
  }

  predicate ValidContinuation(p: Chunk) {
    8 <= |p| && |p| + 4 < 0x1_0000 && p[..4] != FRAME_HEADER && p[..4] != JPEG_HEADER
  }

  /** A data datagram: Drw header, length, 0xD1, stream 1, id, payload. */
  function Drw(id: nat, payload: Chunk): Chunk {
    [0xF1, 0xD0] + U16(|payload| + 4) + [0xD1, 1] + U16(id) + payload
  }

  lemma {:induction false} ClassifyDrw(id: nat, payload: Chunk)
    requires id < 0x1_0000 && 8 <= |payload| && |payload| + 4 < 0x1_0000
    ensures var d := Drw(id, payload);
            && BE16(d, 2) == |payload| + 4 && BE16(d, 6) == id
            && Slice(d, 8, 4) == payload[..4] && d[8..] == payload
            && |d| == |payload| + 8
  {
    var d := Drw(id, payload);
    assert d[2] == (|payload| + 4) / 0x100 && d[3] == (|payload| + 4) % 0x100;
    assert d[6] == id / 0x100 && d[7] == id % 0x100;
  }

  function Inputs(ds: seq<Chunk>): seq<Event> {
    seq(|ds|, i requires 0 <= i < |ds| => Event(Classify(ds[i]), false))
  }

  lemma {:induction false} ClassifyFirst(f: Frame)
    requires f.Valid()
    ensures Classify(f.Datagrams()[0]) == Start(f.id, f.first)
  {
    var payload := if f.header.Some? then f.header.value + f.first else f.first;
    ClassifyDrw(f.id, payload);
    var d := f.Datagrams()[0];
    if f.header.Some? {
      assert payload[..4] == f.header.value[..4];
      assert d[12] == payload[4] == f.header.value[4];
      assert d[40..] == payload[32..] == f.first;
    }
  }

  lemma {:induction false} ClassifyRest(f: Frame, k: nat)
    requires f.Valid() && k < |f.rest|
    ensures Classify(f.Datagrams()[k + 1]) == Continuation(f.IdAt(k + 1), f.rest[k])
  {
    ClassifyDrw(f.IdAt(k + 1), f.rest[k]);
    assert f.Datagrams()[k + 1] == Drw(f.IdAt(k + 1), f.rest[k]);
  }

  /** The state after the first `n` datagrams of a frame: the chunks up to the wrap. */
  function Assembled(f: Frame, n: nat): Asm
    requires f.id < 0x1_0000 && 1 <= n <= 1 + |f.rest|
  {
    var m := Min(n, f.ChunksBeforeWrap());
    Asm(f.Chunks()[..m], f.id + m - 1, false, false)
  }

  lemma {:induction false} FirstChunk(st: Asm, f: Frame, fix: bool)
    requires f.Valid()
    ensures Deliver(st, Event(Start(f.id, f.first), false), fix)
            == Outcome(Assembled(f, 1), if st.curImage != [] && !st.frameIsBad then [st.curImage] else [])
  {
    assert f.Chunks()[..1] == [f.first];
  }

  lemma {:induction false} NextChunk(f: Frame, n: nat, fix: bool)
    requires f.Valid() && 2 <= n <= 1 + |f.rest|
    ensures Deliver(Assembled(f, n - 1), Event(Continuation(f.IdAt(n - 1), f.rest[n - 2]), false), fix)
            == Outcome(Assembled(f, n), [])
  {
    if n <= f.ChunksBeforeWrap() {
      assert f.IdAt(n - 1) == Assembled(f, n - 1).rcvSeqId + 1;
      assert f.Chunks()[..n] == f.Chunks()[..n - 1] + [f.rest[n - 2]];
    } else {
      WrappedIdIsOld(f.id, n - 1);
    }
  }

  lemma {:induction false} OneFrame(st: Asm, f: Frame, n: nat, fix: bool)
    requires f.Valid() && 1 <= n <= 1 + |f.rest|
    ensures var o := Run(st, Inputs(f.Datagrams())[..n], fix);
            && o.asm == Assembled(f, n)
            && o.emitted == if st.curImage != [] && !st.frameIsBad then [st.curImage] else []
  {
    var evs := Inputs(f.Datagrams());
    assert evs[..n][..n - 1] == evs[..n - 1];
    if n == 1 {
      ClassifyFirst(f);
      FirstChunk(st, f, fix);
      assert evs[..0] == [];
    } else {
      OneFrame(st, f, n - 1, fix);
      ClassifyRest(f, n - 2);
      NextChunk(f, n, fix);
    }
  }

  /** After a wrap every id is at most 65535, the last id before it. */
  lemma {:induction false} WrappedIdIsOld(id: nat, k: nat)
    ensures (id + k) % 0x1_0000 <= 0xFFFF
  {
  }

  /** In-order delivery assembles a frame exactly if its ids do not wrap inside it.
      Otherwise the assembler keeps the chunks before the wrap and takes the rest for
      retransmissions, without noticing a loss. */
  lemma {:induction false} FrameAssembledIff(st: Asm, f: Frame, fix: bool)
    requires f.Valid()
    ensures var o := Run(st, Inputs(f.Datagrams()), fix);
            && !o.asm.frameIsBad
            && o.asm.curImage == f.Chunks()[..f.ChunksBeforeWrap()]
            && (o.asm.curImage == f.Chunks() <==> f.id + |f.rest| < 0x1_0000)
  {
    var evs := Inputs(f.Datagrams());
    assert evs[..1 + |f.rest|] == evs;
    OneFrame(st, f, 1 + |f.rest|, fix);
    if f.ChunksBeforeWrap() == |f.Chunks()| {
      assert f.Chunks()[..|f.Chunks()|] == f.Chunks();
    } else {
      assert |f.Chunks()[..f.ChunksBeforeWrap()]| < |f.Chunks()|;
    }
  }

  function AllDatagrams(fs: seq<Frame>): seq<Chunk> {
    if fs == [] then [] else AllDatagrams(fs[..|fs| - 1]) + fs[|fs| - 1].Datagrams()
  }

  function Images(fs: seq<Frame>): seq<Image> {
    seq(|fs|, i requires 0 <= i < |fs| => fs[i].Chunks())
  }

  predicate NoWrapInside(fs: seq<Frame>) {
    forall i :: 0 <= i < |fs| ==> fs[i].Valid() && fs[i].id + |fs[i].rest| < 0x1_0000
  }

  lemma {:induction false} WholeFrameRun(st: Asm, f: Frame, fix: bool)
    requires f.Valid() && f.id + |f.rest| < 0x1_0000
    ensures var o := Run(st, Inputs(f.Datagrams()), fix);
            && o.asm == Asm(f.Chunks(), f.id + |f.rest|, false, false)
            && o.emitted == if st.curImage != [] && !st.frameIsBad then [st.curImage] else []
  {
    hide Run, Classify;
    OneFrame(st, f, 1 + |f.rest|, fix);
    assert Inputs(f.Datagrams())[..1 + |f.rest|] == Inputs(f.Datagrams());
    assert f.Chunks()[..1 + |f.rest|] == f.Chunks();
  }

  function RunFrames(fs: seq<Frame>, fix: bool): Outcome {
    Run(INITIAL, Inputs(AllDatagrams(fs)), fix)
  }

  lemma {:induction false} RunFramesStep(fs: seq<Frame>, fix: bool)
    requires fs != [] && NoWrapInside(fs)
    ensures var n := |fs| - 1;
            var before, o := RunFrames(fs[..n], fix), RunFrames(fs, fix);
            && o.asm.curImage == fs[n].Chunks() && !o.asm.frameIsBad
            && o.emitted == before.emitted
               + if before.asm.curImage != [] && !before.asm.frameIsBad then [before.asm.curImage] else []
  {
    var n := |fs| - 1;
    var before, last := Inputs(AllDatagrams(fs[..n])), Inputs(fs[n].Datagrams());
    assert Inputs(AllDatagrams(fs)) == before + last;
    RunConcat(INITIAL, before, last, fix);
    WholeFrameRun(RunFrames(fs[..n], fix).asm, fs[n], fix);
  }

  lemma {:induction false} InOrderRoundTrip(fs: seq<Frame>, fix: bool)
    requires fs != [] && NoWrapInside(fs)
    ensures var o := RunFrames(fs, fix);
            o.emitted == Images(fs[..|fs| - 1]) && o.asm.curImage == fs[|fs| - 1].Chunks() && !o.asm.frameIsBad
  {
    var n := |fs| - 1;
    RunFramesStep(fs, fix);
    if n > 0 {
      InOrderRoundTrip(fs[..n], fix);
      assert Images(fs[..n]) == Images(fs[..n][..n - 1]) + [fs[..n][n - 1].Chunks()];
    } else {
      assert fs[..0] == [] && RunFrames([], fix) == Outcome(INITIAL, []);
    }
  }

  /** The datagrams that carry video, by their bytes, in order of arrival. */
  function VideoOnly(ds: seq<Chunk>): seq<Chunk> {
    if ds == [] then []
    else
      var n := |ds| - 1;
      if CarriesVideo(ds[n]) then VideoOnly(ds[..n]) + [ds[n]] else VideoOnly(ds[..n])
  }

  /** Datagrams that carry no video, sound among them, make no difference. */
  lemma {:induction false} NoiseIsInvisible(st: Asm, ds: seq<Chunk>, fix: bool)
    ensures Run(st, Inputs(ds), fix) == Run(st, Inputs(VideoOnly(ds)), fix)
  {
    hide Classify, Deliver, CarriesVideo;
    if ds != [] {
      var n := |ds| - 1;
      NoiseIsInvisible(st, ds[..n], fix);
      assert Inputs(ds)[..n] == Inputs(ds[..n]);
      if !CarriesVideo(ds[n]) {
        OthersAreNoVideo(ds[n], Run(st, Inputs(ds[..n]), fix).asm, false, fix);
      } else {
        var vs := VideoOnly(ds);
        assert Inputs(vs)[..|vs| - 1] == Inputs(VideoOnly(ds[..n]));
      }
    }
  }

  /** Every datagram of a frame carries video, so that `VideoOnly(ds) == AllDatagrams(fs)`
      says: `ds` is the frames in order, with datagrams that carry none anywhere in between. */
  lemma {:induction false} FramesCarryVideo(fs: seq<Frame>)
    requires forall i :: 0 <= i < |fs| ==> fs[i].Valid()
    ensures forall k :: 0 <= k < |AllDatagrams(fs)| ==> CarriesVideo(AllDatagrams(fs)[k])
  {
    if fs != [] {
      var n := |fs| - 1;
      FramesCarryVideo(fs[..n]);
      var before, ds := AllDatagrams(fs[..n]), fs[n].Datagrams();
      forall k | 0 <= k < |ds|
        ensures CarriesVideo(ds[k])
      {
        if k == 0 { ClassifyFirst(fs[n]); } else { ClassifyRest(fs[n], k - 1); }
        VideoIff(ds[k]);
      }
    }
  }

  /** Main result: for any frames, fragmented in any way, and any other datagrams in
      between, in-order delivery emits all frames but the last and holds the last,
      chunk for chunk. */
  lemma {:induction false} RoundTrip(fs: seq<Frame>, ds: seq<Chunk>, fix: bool)
    requires fs != [] && NoWrapInside(fs)
    requires VideoOnly(ds) == AllDatagrams(fs)
    ensures var o := Run(INITIAL, Inputs(ds), fix);
            o.emitted == Images(fs[..|fs| - 1]) && o.asm.curImage == fs[|fs| - 1].Chunks()
  {
    NoiseIsInvisible(INITIAL, ds, fix);
    InOrderRoundTrip(fs, fix);
  }
}
