/** Runs with packet-loss fixing on, against the sequence of packets that the camera sent:
    a repair can splice the chunks of a later frame into an image. */
module RepairedFrames {
  import opened Bytes
  import opened RestartMarkers
  import opened FrameAssembler
  import opened AssemblerRuns
  import opened AssemblerRepair

  function AfterFixing(sent: seq<Input>, ds: seq<Delivery>): Outcome
    requires ValidDeliveries(sent, ds)
  {
    Run(INITIAL, ToEvents(sent, ds), true)
  }

  /** The send index of the packet that a piece comes from. */
  function SentAt(p: Piece, base: nat): int {
    p.id - base
  }

  /** Every piece comes from the frame of packet `s`. */
  predicate InOneFrame(sent: seq<Input>, base: nat, ps: seq<Piece>, s: nat) {
    forall k :: 0 <= k < |ps| ==> SameFrame(sent, s, SentAt(ps[k], base))
  }

  /** No start packet was sent behind packet `s` and up to packet `last`. */
  predicate NoStartSent(sent: seq<Input>, s: nat, last: nat)
    requires last < |sent|
  {
    forall t :: s < t <= last ==> !sent[t].Start?
  }

  /** The id that the image begins with: that of the start packet accepted last, or 1. */
  function FirstId(start: Option<Input>): nat
    requires start.Some? ==> start.value.Start?
  {
    if start.Some? then start.value.id else 1
  }

  /** An image can begin with packet `s`: a start packet, or, because `rcv_seq_id` starts at
      0, the packet with id 1. */
  predicate Opens(sent: seq<Input>, base: nat, s: nat) {
    s < |sent| && (sent[s].Start? || base + s == 1)
  }

  /** Where the pieces of a delivered image were sent. */
  lemma {:induction false} PiecesWereSent(sent: seq<Input>, base: nat, ds: seq<Delivery>, ps: seq<Piece>, k: nat)
    requires NoWrap(sent, base) && ValidDeliveries(sent, ds) && k < |ps|
    requires Sources(ps, AfterFixing(sent, ds).asm.curImage, ToEvents(sent, ds))
    ensures 0 <= SentAt(ps[k], base) < |sent| && sent[SentAt(ps[k], base)].data == ps[k].payload
  {
    var evs := ToEvents(sent, ds);
    assert IsPieceOf(ps[k], AfterFixing(sent, ds).asm.curImage[k], evs);
    var j :| 0 <= j < |evs| && evs[j].input.IsVideo() && evs[j].input.id == ps[k].id
      && evs[j].input.data == ps[k].payload;
    assert ValidDelivery(sent, ds[j]);
  }

  /** Main result on repaired images: with fixing on, the pieces of an image come from one
      frame if and only if no start packet was sent between the packet that it begins with
      and the packet accepted last.  Such a start packet was lost, or met a raising listener. */
  lemma {:induction false} RepairedInOneFrameIff(sent: seq<Input>, base: nat, ds: seq<Delivery>)
    returns (ps: seq<Piece>)
    requires NoWrap(sent, base) && ValidDeliveries(sent, ds)
    ensures var st, start := AfterFixing(sent, ds).asm, Begun(ToEvents(sent, ds), true);
            && Describes(ps, st, ToEvents(sent, ds))
            && (st.curImage != [] ==>
                  var s, last := FirstId(start) - base, st.rcvSeqId - base;
                  && 0 <= s <= last < |sent| && Opens(sent, base, s) && SentAt(ps[0], base) == s
                  && (|ps| > 1 ==> s < last)
                  && (InOneFrame(sent, base, ps, s) <==> NoStartSent(sent, s, last)))
  {
    hide Run, Begun, Sources, JoinAt;
    var evs, st := ToEvents(sent, ds), AfterFixing(sent, ds).asm;
    ps := ImageHasProvenance(evs, true);
    var start := Begun(evs, true);
    SourcesSize(ps, st.curImage, evs);
    if st.curImage != [] {
      var s, n := FirstId(start) - base, |ps| - 1;
      forall k | 0 <= k <= n
        ensures 0 <= SentAt(ps[k], base) < |sent|
        ensures s <= SentAt(ps[k], base) <= SentAt(ps[n], base) && (0 < k ==> s < SentAt(ps[k], base))
      {
        PiecesWereSent(sent, base, ds, ps, k);
        if 0 < k { IdsIncrease(ps, st, evs, 0, k); }
        if k < n { IdsIncrease(ps, st, evs, k, n); }
      }
      BegunWasSent(sent, base, ds);
      NoStartIsOneFrame(sent, base, ps, s, SentAt(ps[n], base));
    }
  }

  lemma {:induction false} SourcesSize(ps: seq<Piece>, image: Image, evs: seq<Event>)
    requires Sources(ps, image, evs)
    ensures |ps| == |image|
  {
  }

  lemma {:induction false} NoStartIsOneFrame(sent: seq<Input>, base: nat, ps: seq<Piece>, s: nat, last: nat)
    requires WellSent(sent, base) && ps != [] && last == SentAt(ps[|ps| - 1], base) < |sent|
    requires forall k :: 0 <= k < |ps| ==> s <= SentAt(ps[k], base) <= last
    ensures InOneFrame(sent, base, ps, s) <==> NoStartSent(sent, s, last)
  {
    if InOneFrame(sent, base, ps, s) {
      assert SameFrame(sent, s, SentAt(ps[|ps| - 1], base));
    }
  }

  lemma {:induction false} BegunWasSent(sent: seq<Input>, base: nat, ds: seq<Delivery>)
    requires NoWrap(sent, base) && ValidDeliveries(sent, ds)
    ensures var b := Begun(ToEvents(sent, ds), true);
            b.Some? ==> base <= b.value.id < base + |sent| && sent[b.value.id - base].Start?
  {
    if ds != [] {
      var n := |ds| - 1;
      BegunWasSent(sent, base, ds[..n]);
      assert ToEvents(sent, ds)[..n] == ToEvents(sent, ds[..n]);
      assert ValidDelivery(sent, ds[n]);
    }
  }

  // -- which streams can be mixed ----------------------------------------------------------

  /** The image of this run, if there is one, stays inside its frame. */
  ghost predicate Unmixed(sent: seq<Input>, base: nat, ds: seq<Delivery>)
    requires NoWrap(sent, base) && ValidDeliveries(sent, ds)
  {
    var first, st := FirstId(Begun(ToEvents(sent, ds), true)), AfterFixing(sent, ds).asm;
    st.curImage != [] ==> forall t :: 0 <= t < |sent| && first < base + t <= st.rcvSeqId ==> !sent[t].Start?
  }

  ghost predicate NeverMixed(sent: seq<Input>, base: nat)
    requires NoWrap(sent, base)
  {
    forall ds: seq<Delivery> :: ValidDeliveries(sent, ds) ==> Unmixed(sent, base, ds)
  }

  /** An image that begins with packet `s` reaches continuation `a` of the same frame, and `b`
      is a later continuation of another frame; both hold a restart marker. */
  predicate SpliceAt(sent: seq<Input>, base: nat, s: nat, a: nat, b: nat) {
    && s < a < b < |sent| && Opens(sent, base, s) && SameFrame(sent, s, a)
    && !SameFrame(sent, s, b) && sent[b].Continuation?
    && Markers(sent[a].data) != [] && Markers(sent[b].data) != []
  }

  ghost predicate Spliceable(sent: seq<Input>, base: nat) {
    exists s: nat, a: nat, b: nat :: SpliceAt(sent, base, s, a, b)
  }

  lemma {:induction false} FixingStep(sent: seq<Input>, ds: seq<Delivery>)
    requires ds != [] && ValidDeliveries(sent, ds)
    ensures var n := |ds| - 1;
            var before, e := AfterFixing(sent, ds[..n]).asm, ToEvent(sent, ds[n]);
            && AfterFixing(sent, ds).asm == Deliver(before, e, true).asm
            && Begun(ToEvents(sent, ds), true)
               == if e.input.Start? && !(Emits(before, e.input) && e.raises) then Some(e.input)
                  else Begun(ToEvents(sent, ds[..n]), true)
  {
    assert ToEvents(sent, ds)[..|ds| - 1] == ToEvents(sent, ds[..|ds| - 1]);
  }

  /** The chunk held last is the end of the payload accepted last, so its markers are that
      payload's; and if it is not the only one, that packet came behind the first. */
  lemma {:induction false} LastChunk(sent: seq<Input>, base: nat, ds: seq<Delivery>)
    requires NoWrap(sent, base) && ValidDeliveries(sent, ds) && AfterFixing(sent, ds).asm.curImage != []
    ensures var st := AfterFixing(sent, ds).asm;
            var s, last, n := FirstId(Begun(ToEvents(sent, ds), true)) - base, st.rcvSeqId - base, |st.curImage| - 1;
            && 0 <= s <= last < |sent| && Opens(sent, base, s) && (n > 0 ==> s < last)
            && (Markers(st.curImage[n]) != [] ==> Markers(sent[last].data) != [])
  {
    hide Run, Begun, JoinAt, Opens;
    var evs, st := ToEvents(sent, ds), AfterFixing(sent, ds).asm;
    var ps := RepairedInOneFrameIff(sent, base, ds);
    var n := |ps| - 1;
    PiecesWereSent(sent, base, ds, ps, n);
    assert IsPieceOf(ps[n], st.curImage[n], evs);
    var p := ps[n];
    assert p.payload[p.lo..p.hi] == p.payload[p.lo..];
    if Markers(st.curImage[n]) != [] {
      CutAtLastMarker(p.payload, p.lo);
      MarkerIsListed(p.payload, p.lo + |CutLeft(p.payload[p.lo..])|);
    }
  }

  lemma {:induction false} MarkerIsListed(payload: Chunk, i: nat)
    requires IsMarker(payload, i)
    ensures Markers(payload) != []
  {
    assert i in Markers(payload);
  }

  /** The first packet that takes an image out of its frame is spliced in at two markers. */
  lemma {:induction false} MixedMeansSpliceable(sent: seq<Input>, base: nat, ds: seq<Delivery>)
    requires NoWrap(sent, base) && ValidDeliveries(sent, ds) && !Unmixed(sent, base, ds)
    ensures Spliceable(sent, base)
  {
    hide Run, Begun, Markers, Spliceable;
    if ds == [] {
      NothingHeld(sent, ds);
    } else {
      var before := ds[..|ds| - 1];
      FixingStep(sent, ds);
      if Unmixed(sent, base, before) {
        SplicedNow(sent, base, ds);
      } else {
        MixedMeansSpliceable(sent, base, before);
      }
    }
  }

  lemma {:induction false} NothingHeld(sent: seq<Input>, ds: seq<Delivery>)
    requires ds == []
    ensures AfterFixing(sent, ds).asm == INITIAL && Begun(ToEvents(sent, ds), true) == None
  {
  }

  /** While no image is held and none was begun, the next packet is the one with id 1. */
  lemma {:induction false} NothingYetMeansZero(sent: seq<Input>, ds: seq<Delivery>)
    requires ValidDeliveries(sent, ds) && AfterFixing(sent, ds).asm.curImage == []
    ensures Begun(ToEvents(sent, ds), true) == None && AfterFixing(sent, ds).asm.rcvSeqId == 0
  {
    hide Run, Begun, JoinAt;
    var evs := ToEvents(sent, ds);
    var ps := ImageHasProvenance(evs, true);
    SourcesSize(ps, [], evs);
  }

  lemma {:induction false} SplicedNow(sent: seq<Input>, base: nat, ds: seq<Delivery>)
    requires NoWrap(sent, base) && ValidDeliveries(sent, ds) && ds != [] && !Unmixed(sent, base, ds)
    requires Unmixed(sent, base, ds[..|ds| - 1])
    ensures Spliceable(sent, base)
  {
    hide Run, Begun, Markers, Opens;
    var before, d := ds[..|ds| - 1], ds[|ds| - 1];
    var st := AfterFixing(sent, before).asm;
    FixingStep(sent, ds);
    assert ValidDelivery(sent, d);
    if st.curImage == [] {
      NothingYetMeansZero(sent, before);
    } else {
      LastChunk(sent, base, before);
      var s, last := FirstId(Begun(ToEvents(sent, before), true)) - base, st.rcvSeqId - base;
      assert d.Video? && sent[d.t].id == base + d.t;
      assert SameFrame(sent, s, last);
      assert SpliceAt(sent, base, s, last, d.t);
    }
  }

  /** Packets `s` to `k`, in order. */
  function InSequence(s: nat, k: nat): seq<Delivery>
    requires s <= k
  {
    if s == k then [Video(s, false)] else InSequence(s, k - 1) + [Video(k, false)]
  }

  lemma {:induction false} InSequenceCollects(sent: seq<Input>, base: nat, s: nat, k: nat)
    requires NoWrap(sent, base) && Opens(sent, base, s) && SameFrame(sent, s, k)
    ensures ValidDeliveries(sent, InSequence(s, k))
    ensures FirstId(Begun(ToEvents(sent, InSequence(s, k)), true)) == base + s
    ensures AfterFixing(sent, InSequence(s, k)).asm == Asm(Payloads(sent, s, k), base + k, false, false)
  {
    hide Run, Begun, Markers;
    var ds := InSequence(s, k);
    if s == k {
      FixingStep(sent, ds);
      assert ds[..0] == [];
      NothingHeld(sent, ds[..0]);
      assert Payloads(sent, s, k) == [] + [sent[s].data];
    } else {
      InSequenceCollects(sent, base, s, k - 1);
      FixingStep(sent, ds);
      assert ds[..|ds| - 1] == InSequence(s, k - 1);
      assert Payloads(sent, s, k) == Payloads(sent, s, k - 1) + [sent[k].data];
    }
  }

  lemma {:induction false} SpliceMixes(sent: seq<Input>, base: nat, s: nat, a: nat, b: nat)
    requires NoWrap(sent, base) && SpliceAt(sent, base, s, a, b)
    ensures !NeverMixed(sent, base)
  {
    hide Run, Begun, Markers;
    var before := InSequence(s, a);
    var ds := before + [Video(b, false)];
    InSequenceCollects(sent, base, s, a);
    assert ds[..|ds| - 1] == before;
    FixingStep(sent, ds);
    var t :| s < t <= b && !sent[t].Continuation?;
    assert a < t && sent[t].Start?;
    assert Repairable(AfterFixing(sent, before).asm, sent[b]);
    assert AfterFixing(sent, ds).asm.rcvSeqId == base + b;
    assert !Unmixed(sent, base, ds);
  }

  /** Main result: with fixing on, no image of any run of these packets mixes frames, if and
      only if no image can reach a continuation with a restart marker, from its start packet
      or from the packet with id 1, and go on with another frame's continuation with one. */
  lemma {:induction false} NeverMixedIff(sent: seq<Input>, base: nat)
    requires NoWrap(sent, base)
    ensures NeverMixed(sent, base) <==> !Spliceable(sent, base)
  {
    hide Unmixed;
    if s: nat, a: nat, b: nat :| SpliceAt(sent, base, s, a, b) {
      SpliceMixes(sent, base, s, a, b);
    }
    forall ds: seq<Delivery> | ValidDeliveries(sent, ds) && !Unmixed(sent, base, ds)
      ensures Spliceable(sent, base)
    {
      MixedMeansSpliceable(sent, base, ds);
    }
  }

  // -- the smallest such runs ----------------------------------------------------------------

  const MARKER: Chunk := [0xFF, 0xD0]

  lemma {:induction false} CutAtOnlyMarker()
    ensures Markers(MARKER) != [] && CutLeft(MARKER) == [] && CutRight(MARKER) == MARKER
  {
    assert IsMarker(MARKER, 0) && 0 in Markers(MARKER);
  }

  lemma {:induction false} Append(evs: seq<Event>, e: Event)
    ensures var before, o := Run(INITIAL, evs, true), Deliver(Run(INITIAL, evs, true).asm, e, true);
            Run(INITIAL, evs + [e], true) == Outcome(o.asm, before.emitted + o.emitted)
  {
    assert (evs + [e])[..|evs|] == evs;
  }

  /** A frame of one chunk goes on with its first continuation; the next start packet is
      lost, the continuation behind it is spliced in, and another start packet comes. */
  lemma {:induction false} SplicedAndEmitted(first: Input, id: nat, gap: nat, last: Input)
    requires first.IsVideo() && (first.Start? || first.id == 1) && id == first.id + 1 && id + 1 < gap && last.Start?
    ensures var evs := [Event(first, false), Event(Continuation(id, MARKER), false),
                        Event(Continuation(gap, MARKER), false), Event(last, false)];
            Run(INITIAL, evs, true).emitted == [[first.data, [], MARKER]]
  {
    hide Run, Markers, CutLeft, CutRight;
    var a := first.data;
    var e0, e1 := Event(first, false), Event(Continuation(id, MARKER), false);
    var e2, e3 := Event(Continuation(gap, MARKER), false), Event(last, false);
    EmptyRun();
    Append([], e0);
    assert Run(INITIAL, [] + [e0], true) == Outcome(Asm([a], first.id, false, false), []);
    Append([] + [e0], e1);
    assert Run(INITIAL, [] + [e0] + [e1], true) == Outcome(Asm([a, MARKER], id, false, false), []);
    Append([] + [e0] + [e1], e2);
    CutAtOnlyMarker();
    assert [a, MARKER][..1] + [[], MARKER] == [a, [], MARKER];
    assert Run(INITIAL, [] + [e0] + [e1] + [e2], true) == Outcome(Asm([a, [], MARKER], gap, false, true), []);
    Append([] + [e0] + [e1] + [e2], e3);
    assert [] + [e0] + [e1] + [e2] + [e3] == [e0, e1, e2, e3];
  }

  lemma {:induction false} EmptyRun()
    ensures Run(INITIAL, [], true) == Outcome(INITIAL, [])
  {
  }

  /** Frames are mixed: the second start packet is lost, its continuation is spliced into
      the first frame at a restart marker, and the next start packet emits the result. */
  lemma {:induction false} RepairMixesFrames(a: Chunk, b: Chunk, c: Chunk)
    ensures var sent := [Start(0, a), Continuation(1, MARKER), Start(2, b), Continuation(3, MARKER), Start(4, c)];
            var ds := [Video(0, false), Video(1, false), Video(3, false), Video(4, false)];
            NoWrap(sent, 0) && AfterFixing(sent, ds).emitted == [[a, [], MARKER]]
  {
    var sent := [Start(0, a), Continuation(1, MARKER), Start(2, b), Continuation(3, MARKER), Start(4, c)];
    SplicedAndEmitted(sent[0], 1, 3, sent[4]);
    assert ToEvents(sent, [Video(0, false), Video(1, false), Video(3, false), Video(4, false)])
           == [Event(sent[0], false), Event(sent[1], false), Event(sent[3], false), Event(sent[4], false)];
  }

  /** The same before any start packet was accepted, by a session that joins in the middle of
      a frame: only one start packet of this stream has a continuation. */
  lemma {:induction false} HeadlessRepairMixesFrames(z: Chunk, a: Chunk, b: Chunk, c: Chunk)
    ensures var sent := [Continuation(0, z), Continuation(1, a), Continuation(2, MARKER), Start(3, b),
                         Continuation(4, MARKER), Start(5, c)];
            var ds := [Video(1, false), Video(2, false), Video(4, false), Video(5, false)];
            NoWrap(sent, 0) && AfterFixing(sent, ds).emitted == [[a, [], MARKER]]
  {
    var sent := [Continuation(0, z), Continuation(1, a), Continuation(2, MARKER), Start(3, b),
                 Continuation(4, MARKER), Start(5, c)];
    SplicedAndEmitted(sent[1], 2, 4, sent[5]);
    assert ToEvents(sent, [Video(1, false), Video(2, false), Video(4, false), Video(5, false)])
           == [Event(sent[1], false), Event(sent[2], false), Event(sent[4], false), Event(sent[5], false)];
  }
}
