/** Runs of the assembler with packet-loss fixing off, against the sequence of packets
    that the camera sent: frames are never mixed, and late copies change nothing. */
module AssemblerRuns {
  import opened Bytes
  import opened FrameAssembler

  /** The video packets in the order the camera sent them, `base` being the first id.
      Ids are 16 bits wide, so they wrap. */
  predicate WellSent(sent: seq<Input>, base: nat) {
    forall t :: 0 <= t < |sent| ==> sent[t].IsVideo() && sent[t].id == (base + t) % 0x1_0000
  }

  /** One arrival: the video packet with send index `t` (lost, repeated or reordered as the
      network likes), or a datagram that is not video. */
  datatype Delivery = Video(t: nat, raises: bool) | Other(input: Input, raises: bool)

  predicate ValidDelivery(sent: seq<Input>, d: Delivery) {
    match d
    case Video(t, _) => t < |sent|
    case Other(i, _) => !i.IsVideo()
  }

  predicate ValidDeliveries(sent: seq<Input>, ds: seq<Delivery>) {
    forall i :: 0 <= i < |ds| ==> ValidDelivery(sent, ds[i])
  }

  function ToEvent(sent: seq<Input>, d: Delivery): Event
    requires ValidDelivery(sent, d)
  {
    match d
    case Video(t, raises) => Event(sent[t], raises)
    case Other(i, raises) => Event(i, raises)
  }

  function ToEvents(sent: seq<Input>, ds: seq<Delivery>): seq<Event>
    requires ValidDeliveries(sent, ds)
  {
    seq(|ds|, i requires 0 <= i < |ds| => ToEvent(sent, ds[i]))
  }

  /** The run from the initial state, with fixing off. */
  function After(sent: seq<Input>, ds: seq<Delivery>): Outcome
    requires ValidDeliveries(sent, ds)
  {
    Run(INITIAL, ToEvents(sent, ds), false)
  }

  lemma {:induction false} AfterStep(sent: seq<Input>, ds: seq<Delivery>)
    requires ds != [] && ValidDeliveries(sent, ds)
    ensures var before, e := After(sent, ds[..|ds| - 1]), ToEvent(sent, ds[|ds| - 1]);
            && After(sent, ds).asm == Deliver(before.asm, e, false).asm
            && After(sent, ds).emitted == before.emitted + Deliver(before.asm, e, false).emitted
  {
    var n := |ds| - 1;
    assert ToEvents(sent, ds)[..n] == ToEvents(sent, ds[..n]);
  }

  /** Which sent packets make up the current image: none known before the first start
      packet is accepted, then those with send indices `s` to `last`. */
  datatype Origin = Headless | Frame(s: nat, last: nat)

  /** What one delivery does to the origin of the image in state `st`. */
  function NextOrigin(sent: seq<Input>, st: Asm, origin: Origin, d: Delivery): Origin
    requires ValidDelivery(sent, d)
  {
    if d.Video? && sent[d.t].Start? && !(Emits(st, sent[d.t]) && d.raises) then Frame(d.t, d.t)
    else if d.Video? && InOrder(st, sent[d.t]) && origin.Frame? then Frame(origin.s, d.t)
    else origin
  }

  ghost function OriginAfter(sent: seq<Input>, ds: seq<Delivery>): Origin
    requires ValidDeliveries(sent, ds)
  {
    if ds == [] then Headless
    else
      var n := |ds| - 1;
      NextOrigin(sent, After(sent, ds[..n]).asm, OriginAfter(sent, ds[..n]), ds[n])
  }

  /** `s..last` is one start packet and the continuations sent directly after it: a frame
      as sent, or a beginning of one. */
  predicate IsSentFrame(sent: seq<Input>, s: nat, last: nat) {
    SameFrame(sent, s, last) && sent[s].Start?
  }

  /** Packets `s` and `t` belong to one frame: all that was sent behind `s` and up to `t`
      are continuations. */
  predicate SameFrame(sent: seq<Input>, s: nat, t: int) {
    s <= t < |sent| && forall k :: s < k <= t ==> sent[k].Continuation?
  }

  function Payloads(sent: seq<Input>, s: nat, last: nat): (image: Image)
    requires s <= last < |sent|
    requires forall t :: 0 <= t < |sent| ==> sent[t].IsVideo()
    ensures |image| == last + 1 - s
  {
    seq(last + 1 - s, i requires 0 <= i < last + 1 - s => (assert sent[s + i].IsVideo(); sent[s + i].data))
  }

  /** Each continuation is delivered less than 65536 send positions away from the one
      awaited, except that one with id 0, which is never in order, may come at any time.
      Start packets may come from anywhere. */
  ghost predicate Near(sent: seq<Input>, ds: seq<Delivery>)
    requires ValidDeliveries(sent, ds)
  {
    forall i :: 0 <= i < |ds| && ds[i].Video? && sent[ds[i].t].Continuation? && sent[ds[i].t].id != 0 ==>
      var origin := OriginAfter(sent, ds[..i]);
      origin.Frame? ==> -0x1_0000 < ds[i].t - (origin.last + 1) < 0x1_0000
  }

  /** The image in state `st` is the payloads of the packets that `origin` names. */
  predicate ImageIs(sent: seq<Input>, st: Asm, origin: Origin)
    requires forall t :: 0 <= t < |sent| ==> sent[t].IsVideo()
  {
    origin.Frame? ==>
      && IsSentFrame(sent, origin.s, origin.last)
      && st.curImage == Payloads(sent, origin.s, origin.last)
      && st.rcvSeqId == sent[origin.last].id
  }

  lemma {:induction false} StepKeepsImage(sent: seq<Input>, base: nat, st: Asm, origin: Origin, d: Delivery)
    requires WellSent(sent, base) && ValidDelivery(sent, d) && ImageIs(sent, st, origin)
    requires d.Video? && InOrder(st, sent[d.t]) && origin.Frame? ==> -0x1_0000 < d.t - (origin.last + 1) < 0x1_0000
    ensures ImageIs(sent, Deliver(st, ToEvent(sent, d), false).asm, NextOrigin(sent, st, origin, d))
  {
    if d.Video? && InOrder(st, sent[d.t]) && origin.Frame? {
      SameIdNearby(base, origin.last, d.t);
      assert Payloads(sent, origin.s, d.t) == Payloads(sent, origin.s, origin.last) + [sent[d.t].data];
    }
  }

  lemma {:induction false} ImageIsSentFrame(sent: seq<Input>, base: nat, ds: seq<Delivery>)
    requires WellSent(sent, base) && ValidDeliveries(sent, ds) && Near(sent, ds)
    ensures ImageIs(sent, After(sent, ds).asm, OriginAfter(sent, ds))
  {
    if ds != [] {
      var n := |ds| - 1;
      NearPrefix(sent, ds, n);
      ImageIsSentFrame(sent, base, ds[..n]);
      AfterStep(sent, ds);
      StepKeepsImage(sent, base, After(sent, ds[..n]).asm, OriginAfter(sent, ds[..n]), ds[n]);
    }
  }

  lemma {:induction false} NearPrefix(sent: seq<Input>, ds: seq<Delivery>, n: nat)
    requires ValidDeliveries(sent, ds) && n <= |ds| && Near(sent, ds)
    ensures ValidDeliveries(sent, ds[..n]) && Near(sent, ds[..n])
  {
    forall i | 0 <= i < n
      ensures ds[..n][..i] == ds[..i]
    {
    }
  }

  /** Two packets with the ids of neighbours, less than one wrap apart, are neighbours. */
  lemma {:induction false} SameIdNearby(base: nat, last: nat, t: nat)
    requires (base + t) % 0x1_0000 == (base + last) % 0x1_0000 + 1
    requires -0x1_0000 < t - (last + 1) < 0x1_0000
    ensures t == last + 1
  {
    var p, q := (base + t) / 0x1_0000, (base + last) / 0x1_0000;
    assert t - (last + 1) == (p - q) * 0x1_0000;
  }

  /** No start packet has been accepted: each one delivered met a listener that raised. */
  predicate NoStartAccepted(sent: seq<Input>, ds: seq<Delivery>)
    requires ValidDeliveries(sent, ds)
  {
    forall j :: 0 <= j < |ds| && ds[j].Video? && sent[ds[j].t].Start? ==> ds[j].raises
  }

  lemma {:induction false} HeadlessMeansNoStart(sent: seq<Input>, ds: seq<Delivery>)
    requires ValidDeliveries(sent, ds)
    requires OriginAfter(sent, ds).Headless?
    ensures NoStartAccepted(sent, ds)
  {
    if ds != [] {
      HeadlessMeansNoStart(sent, ds[..|ds| - 1]);
      assert forall j :: 0 <= j < |ds| - 1 ==> ds[j] == ds[..|ds| - 1][j];
    }
  }

  /** Ids do not wrap while these packets are sent. */
  predicate NoWrap(sent: seq<Input>, base: nat) {
    WellSent(sent, base) && base + |sent| <= 0x1_0000
  }

  /** Start packets arrive in the order they were sent, none of them twice. */
  predicate StartsInOrder(sent: seq<Input>, ds: seq<Delivery>)
    requires ValidDeliveries(sent, ds)
  {
    forall i, j :: 0 <= i < j < |ds| && ds[i].Video? && ds[j].Video?
      && sent[ds[i].t].Start? && sent[ds[j].t].Start?
      ==> ds[i].t < ds[j].t
  }

  /** The packets that defeat the retransmit test: a start packet with id 0 whose first
      continuation can arrive before it, since `rcv_seq_id` starts at 0. */
  predicate StartHasIdZero(sent: seq<Input>, base: nat) {
    base == 0 && |sent| > 1 && sent[0].Start? && sent[1].Continuation?
  }

  /** Before a start packet is accepted, only ids 1, 2, ... of sent continuations get in. */
  predicate HeadlessIds(sent: seq<Input>, base: nat, rcv: nat) {
    forall id :: 1 <= id <= rcv ==> IsContinuationId(sent, base, id)
  }

  predicate IsContinuationId(sent: seq<Input>, base: nat, id: nat) {
    base <= id < base + |sent| && sent[id - base].Continuation?
  }

  lemma {:induction false} HeadlessStep(sent: seq<Input>, base: nat, st: Asm, d: Delivery)
    requires NoWrap(sent, base) && ValidDelivery(sent, d) && HeadlessIds(sent, base, st.rcvSeqId)
    requires NextOrigin(sent, st, Headless, d).Headless?
    ensures HeadlessIds(sent, base, Deliver(st, ToEvent(sent, d), false).asm.rcvSeqId)
  {
  }

  lemma {:induction false} HeadlessRun(sent: seq<Input>, base: nat, ds: seq<Delivery>)
    requires NoWrap(sent, base) && ValidDeliveries(sent, ds)
    requires OriginAfter(sent, ds).Headless?
    ensures HeadlessIds(sent, base, After(sent, ds).asm.rcvSeqId)
  {
    hide NoWrap, ToEvent, Deliver;
    if ds != [] {
      var before := ds[..|ds| - 1];
      HeadlessRun(sent, base, before);
      AfterStep(sent, ds);
      HeadlessStep(sent, base, After(sent, before).asm, ds[|ds| - 1]);
    }
  }

  /** An image held before a start packet was accepted: the packets from id 1 on, in order. */
  predicate HeadlessImage(sent: seq<Input>, base: nat, st: Asm)
    requires forall t :: 0 <= t < |sent| ==> sent[t].IsVideo()
  {
    if st.curImage == [] then st.rcvSeqId == 0
    else
      var s, last := 1 - base, st.rcvSeqId - base;
      0 <= s && SameFrame(sent, s, last) && st.curImage == Payloads(sent, s, last)
  }

  lemma {:induction false} HeadlessImageStep(sent: seq<Input>, base: nat, st: Asm, d: Delivery)
    requires NoWrap(sent, base) && ValidDelivery(sent, d) && HeadlessImage(sent, base, st)
    requires NextOrigin(sent, st, Headless, d).Headless?
    ensures HeadlessImage(sent, base, Deliver(st, ToEvent(sent, d), false).asm)
  {
    if d.Video? && InOrder(st, sent[d.t]) {
      assert sent[d.t].id == base + d.t;
      if st.curImage == [] {
        assert Payloads(sent, d.t, d.t) == [] + [sent[d.t].data];
      } else {
        assert Payloads(sent, 1 - base, d.t) == Payloads(sent, 1 - base, d.t - 1) + [sent[d.t].data];
      }
    }
  }

  lemma {:induction false} HeadlessKeepsImage(sent: seq<Input>, base: nat, ds: seq<Delivery>)
    requires NoWrap(sent, base) && ValidDeliveries(sent, ds) && OriginAfter(sent, ds).Headless?
    ensures HeadlessImage(sent, base, After(sent, ds).asm)
  {
    hide ToEvent, Deliver, SameFrame;
    if ds != [] {
      var before := ds[..|ds| - 1];
      HeadlessKeepsImage(sent, base, before);
      AfterStep(sent, ds);
      HeadlessImageStep(sent, base, After(sent, before).asm, ds[|ds| - 1]);
    }
  }

  /** Main result.  Whatever the network does, every image emitted is the payloads of
      consecutive packets of one sent frame, from its start packet on: bytes of two frames
      are never mixed.  The one exception is an emission before any start packet was
      accepted, of continuations let in because `rcv_seq_id` starts at 0; without id wrap it
      is the payloads of consecutive packets of one frame, too. */
  lemma {:induction false} FramesAreNeverMixed(sent: seq<Input>, base: nat, ds: seq<Delivery>, i: nat, image: Image)
    requires WellSent(sent, base) && ValidDeliveries(sent, ds) && Near(sent, ds)
    requires i < |ds|
    requires image in Deliver(After(sent, ds[..i]).asm, ToEvent(sent, ds[i]), false).emitted
    ensures (exists s, last :: IsSentFrame(sent, s, last) && image == Payloads(sent, s, last))
            || NoStartAccepted(sent, ds[..i])
    ensures NoWrap(sent, base) ==>
      exists s: nat, last: nat :: SameFrame(sent, s, last) && image == Payloads(sent, s, last)
  {
    NearPrefix(sent, ds, i);
    ImageIsSentFrame(sent, base, ds[..i]);
    if OriginAfter(sent, ds[..i]).Headless? {
      HeadlessMeansNoStart(sent, ds[..i]);
      if NoWrap(sent, base) {
        HeadlessKeepsImage(sent, base, ds[..i]);
      }
    }
  }

  /** A stream whose ids wrap, with one start packet in it. */
  function LongStream(a: Chunk, b: Chunk, c: Chunk): (sent: seq<Input>)
    ensures |sent| == 0x1_0003
  {
    seq(0x1_0003, t requires 0 <= t < 0x1_0003 =>
      if t == 3 then Start(3, c) else Continuation(t % 0x1_0000, if t == 1 then a else b))
  }

  lemma {:induction false} LongStreamIsWellSent(a: Chunk, b: Chunk, c: Chunk)
    ensures var sent := LongStream(a, b, c);
            && WellSent(sent, 0) && !SameFrame(sent, 1, 0x1_0002)
            && sent[1] == Continuation(1, a) && sent[0x1_0002] == Continuation(2, b) && sent[3] == Start(3, c)
  {
    assert !LongStream(a, b, c)[3].Continuation?;
  }

  /** Two continuations, the second one the next id behind the first, before the first start
      packet: they are put together, wherever in the stream they come from. */
  lemma {:induction false} HeadlessPairEmitted(sent: seq<Input>, t: nat, u: nat, v: nat)
    requires t < |sent| && u < |sent| && v < |sent|
    requires sent[t].Continuation? && sent[t].id == 1 && sent[u].Continuation? && sent[u].id == 2 && sent[v].Start?
    ensures var ds := [Video(t, false), Video(u, false), Video(v, false)];
            && ValidDeliveries(sent, ds) && Near(sent, ds) && After(sent, ds).emitted == [[sent[t].data, sent[u].data]]
  {
    var ds := [Video(t, false), Video(u, false), Video(v, false)];
    assert ds[..2][..1] == ds[..1] && ds[..1][..0] == [] && ds[..0] == [];
    AfterStep(sent, ds[..1]);
    AfterStep(sent, ds[..2]);
    AfterStep(sent, ds);
    assert After(sent, ds[..2]).asm == Asm([sent[t].data, sent[u].data], 2, false, false);
  }

  /** The exception is one: before a start packet was accepted, ids that wrap can make a
      packet from far beyond the next start packet the next one. */
  lemma {:induction false} HeadlessWrapMixesFrames(a: Chunk, b: Chunk, c: Chunk)
    ensures var sent := LongStream(a, b, c);
            var ds := [Video(1, false), Video(0x1_0002, false), Video(3, false)];
            && WellSent(sent, 0) && ValidDeliveries(sent, ds) && Near(sent, ds)
            && After(sent, ds).emitted == [[a, b]] && !SameFrame(sent, 1, 0x1_0002)
  {
    hide LongStream, WellSent, SameFrame, ValidDeliveries, Near, After;
    LongStreamIsWellSent(a, b, c);
    HeadlessPairEmitted(LongStream(a, b, c), 1, 0x1_0002, 3);
  }

  lemma {:induction false} NoWrapIsNear(sent: seq<Input>, base: nat, ds: seq<Delivery>)
    requires NoWrap(sent, base) && ValidDeliveries(sent, ds)
    ensures Near(sent, ds)
  {
    forall i | 0 <= i < |ds| && ds[i].Video? && sent[ds[i].t].id != 0 && OriginAfter(sent, ds[..i]).Frame?
      ensures -0x1_0000 < ds[i].t - (OriginAfter(sent, ds[..i]).last + 1) < 0x1_0000
    {
      OriginInRange(sent, ds[..i]);
      assert ValidDelivery(sent, ds[i]);
    }
  }

  lemma {:induction false} OriginInRange(sent: seq<Input>, ds: seq<Delivery>)
    requires ValidDeliveries(sent, ds) && OriginAfter(sent, ds).Frame?
    ensures OriginAfter(sent, ds).last < |sent|
    ensures exists j :: 0 <= j < |ds| && ds[j].Video? && ds[j].t == OriginAfter(sent, ds).s && sent[ds[j].t].Start?
  {
    var n := |ds| - 1;
    if OriginAfter(sent, ds[..n]).Frame? {
      OriginInRange(sent, ds[..n]);
      assert forall j :: 0 <= j < n ==> ds[j] == ds[..n][j];
    }
  }

  lemma {:induction false} StartBeyondFrame(sent: seq<Input>, s: nat, last: nat, t: nat)
    requires IsSentFrame(sent, s, last) && s < t < |sent| && sent[t].Start?
    ensures last < t
  {
  }

  lemma {:induction false} StartBeyondHeadless(sent: seq<Input>, base: nat, rcv: nat, t: nat)
    requires !StartHasIdZero(sent, base) && HeadlessIds(sent, base, rcv)
    requires t < |sent| && sent[t].Start?
    ensures rcv <= base + t
  {
    assert !IsContinuationId(sent, base, base + t);
    assert 1 <= rcv ==> IsContinuationId(sent, base, 1);
  }

  /** The start packet of the current image is older than a start packet arriving now. */
  lemma {:induction false} OriginBeforeStart(sent: seq<Input>, ds: seq<Delivery>, n: nat)
    requires ValidDeliveries(sent, ds) && StartsInOrder(sent, ds) && n < |ds|
    requires ds[n].Video? && sent[ds[n].t].Start? && OriginAfter(sent, ds[..n]).Frame?
    ensures OriginAfter(sent, ds[..n]).s < ds[n].t
  {
    OriginInRange(sent, ds[..n]);
    var j :| 0 <= j < n && ds[..n][j].Video? && ds[..n][j].t == OriginAfter(sent, ds[..n]).s
      && sent[ds[..n][j].t].Start?;
    assert ds[j] == ds[..n][j];
  }

  /** A start packet arriving in order is beyond everything accepted so far. */
  lemma {:induction false} StartIsAhead(sent: seq<Input>, base: nat, ds: seq<Delivery>, n: nat)
    requires NoWrap(sent, base) && ValidDeliveries(sent, ds) && StartsInOrder(sent, ds) && n < |ds|
    requires !StartHasIdZero(sent, base)
    requires ds[n].Video? && sent[ds[n].t].Start?
    ensures After(sent, ds[..n]).asm.rcvSeqId <= base + ds[n].t
  {
    hide After, OriginAfter, StartsInOrder, Near;
    var origin := OriginAfter(sent, ds[..n]);
    if origin.Frame? {
      NoWrapIsNear(sent, base, ds[..n]);
      ImageIsSentFrame(sent, base, ds[..n]);
      OriginBeforeStart(sent, ds, n);
      StartBeyondFrame(sent, origin.s, origin.last, ds[n].t);
    } else {
      HeadlessRun(sent, base, ds[..n]);
      StartBeyondHeadless(sent, base, After(sent, ds[..n]).asm.rcvSeqId, ds[n].t);
    }
  }

  /** One more delivery does not take `rcv_seq_id` back. */
  lemma {:induction false} RcvSeqIdStep(sent: seq<Input>, base: nat, ds: seq<Delivery>)
    requires NoWrap(sent, base) && ValidDeliveries(sent, ds) && StartsInOrder(sent, ds) && ds != []
    requires !StartHasIdZero(sent, base)
    ensures After(sent, ds[..|ds| - 1]).asm.rcvSeqId <= After(sent, ds).asm.rcvSeqId
  {
    AfterStep(sent, ds);
    var d := ds[|ds| - 1];
    if d.Video? && sent[d.t].Start? {
      StartIsAhead(sent, base, ds, |ds| - 1);
    }
  }

  lemma {:induction false} RcvSeqIdMonotone(sent: seq<Input>, base: nat, ds: seq<Delivery>, n: nat)
    requires NoWrap(sent, base) && ValidDeliveries(sent, ds) && StartsInOrder(sent, ds)
    requires !StartHasIdZero(sent, base) && n <= |ds|
    ensures After(sent, ds[..n]).asm.rcvSeqId <= After(sent, ds).asm.rcvSeqId
  {
    if n == |ds| {
      assert ds[..n] == ds;
    } else {
      RcvSeqIdStep(sent, base, ds);
      RcvSeqIdMonotone(sent, base, ds[..|ds| - 1], n);
      assert ds[..|ds| - 1][..n] == ds[..n];
    }
  }

  ghost predicate NeverDecreases(sent: seq<Input>)
  {
    forall ds: seq<Delivery>, n: nat :: ValidDeliveries(sent, ds) && StartsInOrder(sent, ds) && n <= |ds| ==>
      After(sent, ds[..n]).asm.rcvSeqId <= After(sent, ds).asm.rcvSeqId
  }

  /** `rcv_seq_id` never decreases over any run of these packets, if and only if no start
      packet with id 0 has a continuation. */
  lemma {:induction false} RcvSeqIdNeverDecreasesIff(sent: seq<Input>, base: nat)
    requires NoWrap(sent, base)
    ensures NeverDecreases(sent) <==> !StartHasIdZero(sent, base)
  {
    if StartHasIdZero(sent, base) {
      var ds := [Video(1, false), Video(0, false)];
      assert ds[..1] == [Video(1, false)] && ds[..1][..0] == [];
      AfterStep(sent, ds[..1]);
      AfterStep(sent, ds);
      assert After(sent, ds[..1]).asm.rcvSeqId == 1 && After(sent, ds).asm.rcvSeqId == 0;
      assert !NeverDecreases(sent);
    } else {
      forall ds: seq<Delivery>, n: nat | ValidDeliveries(sent, ds) && StartsInOrder(sent, ds) && n <= |ds|
        ensures After(sent, ds[..n]).asm.rcvSeqId <= After(sent, ds).asm.rcvSeqId
      {
        RcvSeqIdMonotone(sent, base, ds, n);
      }
    }
  }

  /** A delivery, marked as a repetition or not. */
  datatype Marked = Marked(d: Delivery, copy: bool)

  function All(ms: seq<Marked>): seq<Delivery> {
    seq(|ms|, i requires 0 <= i < |ms| => ms[i].d)
  }

  function Originals(ms: seq<Marked>): seq<Delivery> {
    if ms == [] then []
    else
      var n := |ms| - 1;
      if ms[n].copy then Originals(ms[..n]) else Originals(ms[..n]) + [ms[n].d]
  }

  /** Delivery `i` of the run appended its packet to the image. */
  predicate Accepted(sent: seq<Input>, ds: seq<Delivery>, i: nat)
    requires ValidDeliveries(sent, ds)
  {
    i < |ds| && ds[i].Video? && InOrder(After(sent, ds[..i]).asm, sent[ds[i].t])
  }

  /** `d` repeats a continuation that the run `ds` accepted. */
  ghost predicate RepeatsAccepted(sent: seq<Input>, ds: seq<Delivery>, d: Delivery)
    requires ValidDeliveries(sent, ds)
  {
    d.Video? && exists i :: 0 <= i < |ds| && Accepted(sent, ds, i) && ds[i].t == d.t
  }

  ghost predicate CopiesAreLate(sent: seq<Input>, ms: seq<Marked>)
    requires ValidDeliveries(sent, All(ms))
  {
    forall j :: 0 <= j < |ms| && ms[j].copy ==>
      ValidDeliveries(sent, All(ms[..j])) && RepeatsAccepted(sent, All(ms[..j]), ms[j].d)
  }

  /** Once accepted, an id stays behind `rcv_seq_id`. */
  lemma {:induction false} AcceptedStaysBehind(sent: seq<Input>, base: nat, ds: seq<Delivery>, i: nat)
    requires NoWrap(sent, base) && ValidDeliveries(sent, ds) && StartsInOrder(sent, ds)
    requires !StartHasIdZero(sent, base) && Accepted(sent, ds, i)
    ensures sent[ds[i].t].Continuation? && sent[ds[i].t].id <= After(sent, ds).asm.rcvSeqId
  {
    RcvSeqIdMonotone(sent, base, ds, i + 1);
    assert ds[..i + 1][..i] == ds[..i];
    AfterStep(sent, ds[..i + 1]);
  }

  /** A run with any number of later copies of accepted continuations emits the same images
      and ends in the same state as the run without. */
  lemma {:induction false} SameWithoutCopies(sent: seq<Input>, base: nat, ms: seq<Marked>)
    requires NoWrap(sent, base) && !StartHasIdZero(sent, base)
    requires ValidDeliveries(sent, All(ms)) && ValidDeliveries(sent, Originals(ms))
    requires StartsInOrder(sent, All(ms)) && CopiesAreLate(sent, ms)
    ensures After(sent, All(ms)) == After(sent, Originals(ms))
  {
    if ms != [] {
      var n := |ms| - 1;
      AllPrefix(sent, ms);
      SameWithoutCopies(sent, base, ms[..n]);
      AfterStep(sent, All(ms));
      if ms[n].copy {
        var ds := All(ms[..n]);
        assert RepeatsAccepted(sent, ds, ms[n].d);
        var i :| 0 <= i < |ds| && Accepted(sent, ds, i) && ds[i].t == ms[n].d.t;
        AcceptedStaysBehind(sent, base, ds, i);
      } else {
        assert Originals(ms)[..|Originals(ms)| - 1] == Originals(ms[..n]);
        AfterStep(sent, Originals(ms));
      }
    }
  }

  lemma {:induction false} AllPrefix(sent: seq<Input>, ms: seq<Marked>)
    requires ms != [] && ValidDeliveries(sent, All(ms)) && ValidDeliveries(sent, Originals(ms))
    requires StartsInOrder(sent, All(ms)) && CopiesAreLate(sent, ms)
    ensures var p := ms[..|ms| - 1];
            && All(p) == All(ms)[..|ms| - 1]
            && ValidDeliveries(sent, All(p)) && ValidDeliveries(sent, Originals(p))
            && StartsInOrder(sent, All(p)) && CopiesAreLate(sent, p)
  {
    var p := ms[..|ms| - 1];
    assert All(p) == All(ms)[..|ms| - 1];
    assert forall i :: 0 <= i < |p| ==> All(p)[i] == All(ms)[i];
    assert forall i :: 0 <= i < |Originals(p)| ==> Originals(p)[i] == Originals(ms)[i];
    assert forall j :: 0 <= j < |p| ==> p[..j] == ms[..j] && p[j] == ms[j];
  }

  /** Runs with later copies of accepted continuations in them do as the runs without. */
  ghost predicate CopiesInvisible(sent: seq<Input>) {
    forall ms: seq<Marked> :: ValidDeliveries(sent, All(ms)) && ValidDeliveries(sent, Originals(ms))
      && StartsInOrder(sent, All(ms)) && CopiesAreLate(sent, ms)
      ==> After(sent, All(ms)) == After(sent, Originals(ms))
  }

  /** A continuation let in before its start packet, then the start packet, then the
      continuation again: the copy is taken for the next packet. */
  lemma {:induction false} EarlyContinuationComesBack(sent: seq<Input>, base: nat)
    requires NoWrap(sent, base) && StartHasIdZero(sent, base)
    ensures !CopiesInvisible(sent)
  {
    var v0, v1 := Video(0, false), Video(1, false);
    var ms := [Marked(v1, false), Marked(v0, false), Marked(v1, true)];
    assert ms[..2] == [ms[0], ms[1]] && ms[..2][..1] == [ms[0]] && ms[..2][..1][..0] == [];
    OneCopy(v1, v0);
    TwoThenOne(sent);
    assert RepeatsAccepted(sent, [v1, v0], v1) by {
      assert [v1, v0][..0] == [] && Accepted(sent, [v1, v0], 0);
    }
    assert forall j :: 0 <= j < |ms| && ms[j].copy ==> j == 2;
  }

  lemma {:induction false} OneCopy(v: Delivery, w: Delivery)
    ensures var ms := [Marked(v, false), Marked(w, false), Marked(v, true)];
            All(ms) == [v, w, v] && All(ms[..2]) == [v, w] && Originals(ms) == [v, w]
  {
    var a, b, c := Marked(v, false), Marked(w, false), Marked(v, true);
    OriginalsSnoc([], a);
    OriginalsSnoc([a], b);
    OriginalsSnoc([a, b], c);
    assert [] + [a] == [a] && [a] + [b] == [a, b] && [a, b] + [c] == [a, b, c];
  }

  lemma {:induction false} OriginalsSnoc(ms: seq<Marked>, m: Marked)
    ensures Originals(ms + [m]) == Originals(ms) + if m.copy then [] else [m.d]
    ensures Originals([]) == []
  {
    assert (ms + [m])[..|ms|] == ms;
  }

  lemma {:induction false} TwoThenOne(sent: seq<Input>)
    requires WellSent(sent, 0) && |sent| > 1 && sent[0].Start? && sent[1].Continuation?
    ensures var v0, v1 := Video(0, false), Video(1, false);
            && |After(sent, [v1, v0]).asm.curImage| == 1
            && |After(sent, [v1, v0, v1]).asm.curImage| == 2
  {
    var v0, v1 := Video(0, false), Video(1, false);
    assert [v1, v0, v1][..2] == [v1, v0] && [v1, v0][..1] == [v1] && [v1][..0] == [];
    AfterStep(sent, [v1]);
    AfterStep(sent, [v1, v0]);
    AfterStep(sent, [v1, v0, v1]);
  }

  /** Late copies of continuations change nothing, over all runs of these packets, if and
      only if no start packet with id 0 has a continuation. */
  lemma {:induction false} LateCopiesInvisibleIff(sent: seq<Input>, base: nat)
    requires NoWrap(sent, base)
    ensures CopiesInvisible(sent) <==> !StartHasIdZero(sent, base)
  {
    if StartHasIdZero(sent, base) {
      EarlyContinuationComesBack(sent, base);
    } else {
      forall ms: seq<Marked> | ValidDeliveries(sent, All(ms)) && ValidDeliveries(sent, Originals(ms))
        && StartsInOrder(sent, All(ms)) && CopiesAreLate(sent, ms)
        ensures After(sent, All(ms)) == After(sent, Originals(ms))
      {
        SameWithoutCopies(sent, base, ms);
      }
    }
  }

  // -- what marks an image as bad -------------------------------------------------------

  predicate NoStart(evs: seq<Event>) {
    forall i :: 0 <= i < |evs| ==> !evs[i].input.Start?
  }

  /** Event `i` of the run arrived across a gap that was repaired. */
  predicate RepairedAt(st: Asm, evs: seq<Event>, fix: bool, i: nat)
    requires i < |evs|
  {
    fix && Repairable(Run(st, evs[..i], fix).asm, evs[i].input)
  }

  /** Event `i` of the run arrived across a gap that was not repaired. */
  predicate LostAt(st: Asm, evs: seq<Event>, fix: bool, i: nat)
    requires i < |evs|
  {
    Gap(Run(st, evs[..i], fix).asm, evs[i].input) && !RepairedAt(st, evs, fix, i)
  }

  predicate NoRepairFrom(st: Asm, evs: seq<Event>, fix: bool, i: nat) {
    forall j :: i <= j < |evs| ==> !RepairedAt(st, evs, fix, j)
  }

  /** Some gap was not repaired, and none has been since. */
  predicate GapLeft(st: Asm, evs: seq<Event>, fix: bool) {
    exists i :: 0 <= i < |evs| && LostAt(st, evs, fix, i) && NoRepairFrom(st, evs, fix, i)
  }

  lemma {:induction false} GapLeftSnoc(st: Asm, evs: seq<Event>, fix: bool)
    requires evs != []
    ensures var n := |evs| - 1;
            && (NoRepairFrom(st, evs, fix, 0) <==> NoRepairFrom(st, evs[..n], fix, 0) && !RepairedAt(st, evs, fix, n))
            && (GapLeft(st, evs, fix) <==>
                  LostAt(st, evs, fix, n) || (GapLeft(st, evs[..n], fix) && !RepairedAt(st, evs, fix, n)))
  {
    hide Run, Gap, Repairable;
    var n, before := |evs| - 1, evs[..|evs| - 1];
    forall i | 0 <= i < n
      ensures RepairedAt(st, before, fix, i) == RepairedAt(st, evs, fix, i)
      ensures LostAt(st, before, fix, i) == LostAt(st, evs, fix, i)
    {
      assert before[..i] == evs[..i] && before[i] == evs[i];
    }
    forall i | 0 <= i <= n
      ensures NoRepairFrom(st, evs, fix, i) <==> NoRepairFrom(st, before, fix, i) && !RepairedAt(st, evs, fix, n)
    {
    }
    if LostAt(st, evs, fix, n) {
      assert NoRepairFrom(st, evs, fix, n);
    }
  }

  lemma {:induction false} NoEventNoGap(st: Asm, fix: bool)
    ensures !GapLeft(st, [], fix) && NoRepairFrom(st, [], fix, 0)
  {
  }

  lemma {:induction false} BadIffGapLeft(st: Asm, evs: seq<Event>, fix: bool)
    requires NoStart(evs)
    ensures Run(st, evs, fix).asm.frameIsBad <==>
      GapLeft(st, evs, fix) || (st.frameIsBad && NoRepairFrom(st, evs, fix, 0))
    ensures st.curImage != [] ==> Run(st, evs, fix).asm.curImage != []
  {
    hide GapLeft, NoRepairFrom;
    if evs == [] {
      NoEventNoGap(st, fix);
    } else {
      BadIffGapLeft(st, evs[..|evs| - 1], fix);
      GapLeftSnoc(st, evs, fix);
    }
  }

  /** Fixing on or off, the image begun by an accepted start packet is emitted when the next
      start packet arrives if and only if no packet arrived across a gap in between that was
      left unrepaired, counting from the last repair on. */
  lemma {:induction false} EmittedIffNoGapLeft(st: Asm, evs: seq<Event>, next: Event, fix: bool)
    requires st.curImage != [] && !st.frameIsBad && NoStart(evs) && next.input.Start?
    ensures var before := Run(st, evs, fix).asm;
            Deliver(before, next, fix).emitted == if GapLeft(st, evs, fix) then [] else [before.curImage]
  {
    BadIffGapLeft(st, evs, fix);
  }

  /** With fixing off nothing is repaired: one gap is enough. */
  lemma {:induction false} FixingOffKeepsGaps(st: Asm, evs: seq<Event>)
    ensures GapLeft(st, evs, false) <==>
      exists i :: 0 <= i < |evs| && Gap(Run(st, evs[..i], false).asm, evs[i].input)
  {
    if i :| 0 <= i < |evs| && Gap(Run(st, evs[..i], false).asm, evs[i].input) {
      assert LostAt(st, evs, false, i) && NoRepairFrom(st, evs, false, i);
    }
    if i :| 0 <= i < |evs| && LostAt(st, evs, false, i) && NoRepairFrom(st, evs, false, i) {
      assert Gap(Run(st, evs[..i], false).asm, evs[i].input);
    }
  }
}
