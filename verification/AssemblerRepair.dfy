/** Runs of the assembler with packet-loss fixing on, over arbitrary datagrams: where the
    bytes of every chunk come from, and what a repaired join looks like. */
module AssemblerRepair {
  import opened Bytes
  import opened RestartMarkers
  import opened FrameAssembler

  /** A chunk of the image: bytes `lo..hi` of the payload of a delivered packet. */
  datatype Piece = Piece(id: nat, payload: Chunk, lo: nat, hi: nat)

  predicate Delivered(evs: seq<Event>, p: Piece) {
    exists j :: 0 <= j < |evs| && evs[j].input.IsVideo() && evs[j].input.id == p.id && evs[j].input.data == p.payload
  }

  predicate IsPieceOf(p: Piece, chunk: Chunk, evs: seq<Event>) {
    p.lo <= p.hi <= |p.payload| && chunk == p.payload[p.lo..p.hi] && Delivered(evs, p)
  }

  predicate Consecutive(left: Piece, right: Piece) {
    right.id == left.id + 1
  }

  /** Nothing is missing between the two pieces and nothing was cut there. */
  predicate WholeJoin(left: Piece, right: Piece) {
    left.hi == |left.payload| && right.lo == 0
  }

  /** The left piece ends just before the last restart marker of its packet, the right
      piece starts at the first one of its packet. */
  ghost predicate CutJoin(left: Piece, right: Piece) {
    && IsMarker(left.payload, left.hi) && (forall i :: left.hi < i ==> !IsMarker(left.payload, i))
    && IsMarker(right.payload, right.lo) && (forall i :: i < right.lo ==> !IsMarker(right.payload, i))
  }

  ghost predicate JoinOk(left: Piece, right: Piece) {
    left.id < right.id
    && if Consecutive(left, right) then WholeJoin(left, right) else CutJoin(left, right)
  }

  ghost predicate JoinAt(ps: seq<Piece>, k: nat) {
    k + 1 < |ps| ==> JoinOk(ps[k], ps[k + 1])
  }

  predicate CutAt(ps: seq<Piece>, k: nat) {
    k + 1 < |ps| && !Consecutive(ps[k], ps[k + 1])
  }

  ghost predicate SomeCut(ps: seq<Piece>) {
    exists k :: CutAt(ps, k)
  }

  /** Piece `k` is where chunk `k` comes from. */
  predicate Sources(ps: seq<Piece>, image: Image, evs: seq<Event>) {
    |ps| == |image| && forall k :: 0 <= k < |ps| ==> IsPieceOf(ps[k], image[k], evs)
  }

  /** The ends of the image, and its first chunk, are never cut. */
  predicate EndsWhole(ps: seq<Piece>) {
    ps != [] ==> ps[0].lo == 0 && ps[|ps| - 1].hi == |ps[|ps| - 1].payload| && ps[0].hi == |ps[0].payload|
  }

  /** `ps` accounts for the whole of the image: all its joins are as they should be, the
      ends and the first chunk are never cut, and `frame_was_fixed` tells whether some
      join was cut. */
  ghost predicate Describes(ps: seq<Piece>, st: Asm, evs: seq<Event>) {
    && Sources(ps, st.curImage, evs)
    && (forall k :: JoinAt(ps, k))
    && EndsWhole(ps)
    && (ps != [] ==> ps[|ps| - 1].id == st.rcvSeqId)
    && (st.frameWasFixed <==> SomeCut(ps))
  }

  lemma {:induction false} SourcesMore(ps: seq<Piece>, image: Image, evs: seq<Event>, e: Event)
    requires Sources(ps, image, evs)
    ensures Sources(ps, image, evs + [e])
  {
    assert forall j :: 0 <= j < |evs| ==> (evs + [e])[j] == evs[j];
    forall k | 0 <= k < |ps|
      ensures IsPieceOf(ps[k], image[k], evs + [e])
    {
      assert IsPieceOf(ps[k], image[k], evs);
    }
  }

  function WholePiece(i: Input): Piece
    requires i.IsVideo()
  {
    Piece(i.id, i.data, 0, |i.data|)
  }

  /** Appending a piece that fits the last one. */
  lemma {:induction false} JoinsSnoc(ps: seq<Piece>, p: Piece)
    requires forall k :: JoinAt(ps, k)
    requires ps != [] ==> JoinOk(ps[|ps| - 1], p)
    ensures forall k :: JoinAt(ps + [p], k)
    ensures SomeCut(ps + [p]) <==> SomeCut(ps) || (ps != [] && !Consecutive(ps[|ps| - 1], p))
  {
    forall k: nat
      ensures JoinAt(ps + [p], k)
      ensures CutAt(ps + [p], k) <==> CutAt(ps, k) || (k + 1 == |ps| && !Consecutive(ps[k], p))
    {
      assert JoinAt(ps, k);
    }
    if ps != [] && !Consecutive(ps[|ps| - 1], p) {
      assert CutAt(ps + [p], |ps| - 1);
    }
  }

  /** Cutting the end of the last piece leaves all joins as they were. */
  lemma {:induction false} JoinsTrim(ps: seq<Piece>, hi: nat)
    requires ps != [] && forall k :: JoinAt(ps, k)
    ensures var qs := ps[..|ps| - 1] + [ps[|ps| - 1].(hi := hi)];
            (forall k :: JoinAt(qs, k)) && (SomeCut(qs) <==> SomeCut(ps))
  {
    var qs := ps[..|ps| - 1] + [ps[|ps| - 1].(hi := hi)];
    forall k
      ensures JoinAt(qs, k)
      ensures CutAt(qs, k) <==> CutAt(ps, k)
    {
      assert JoinAt(ps, k);
    }
  }

  /** The markers of a suffix are markers of the whole. */
  lemma {:induction false} CutAtLastMarker(payload: Chunk, lo: nat)
    requires lo <= |payload| && Markers(payload[lo..]) != []
    ensures var hi := lo + |CutLeft(payload[lo..])|;
            hi <= |payload| && IsMarker(payload, hi) && CutLeft(payload[lo..]) == payload[lo..hi]
            && forall i :: hi < i ==> !IsMarker(payload, i)
  {
    forall i | lo <= i
      ensures IsMarker(payload, i) == IsMarker(payload[lo..], i - lo)
    {
    }
  }

  lemma {:induction false} DescribesInOrder(ps: seq<Piece>, st: Asm, evs: seq<Event>, e: Event)
    requires Describes(ps, st, evs) && InOrder(st, e.input)
    ensures Describes(ps + [WholePiece(e.input)], Deliver(st, e, false).asm, evs + [e])
  {
    var p := WholePiece(e.input);
    assert (evs + [e])[|evs|] == e;
    SourcesMore(ps, st.curImage, evs, e);
    JoinsSnoc(ps, p);
  }

  /** The last piece, cut, and the new one, cut, with the join between them. */
  lemma {:induction false} RepairedPieces(q: Piece, chunk: Chunk, i: Input, evs: seq<Event>)
    returns (q': Piece, p: Piece)
    requires IsPieceOf(q, chunk, evs) && q.hi == |q.payload| && Markers(chunk) != []
    requires i.Continuation? && Markers(i.data) != [] && q.id + 1 < i.id
    requires Delivered(evs, WholePiece(i))
    ensures q' == q.(hi := q'.hi) && IsPieceOf(q', CutLeft(chunk), evs)
    ensures p.id == i.id && p.hi == |p.payload| && IsPieceOf(p, CutRight(i.data), evs)
    ensures JoinOk(q', p)
  {
    assert q.payload[q.lo..q.hi] == q.payload[q.lo..];
    CutAtLastMarker(q.payload, q.lo);
    q' := q.(hi := q.lo + |CutLeft(chunk)|);
    p := Piece(i.id, i.data, |i.data| - |CutRight(i.data)|, |i.data|);
  }

  lemma {:induction false} DescribesRepaired(ps: seq<Piece>, st: Asm, evs: seq<Event>, e: Event)
    returns (qs: seq<Piece>)
    requires Describes(ps, st, evs) && Repairable(st, e.input)
    ensures Describes(qs, Deliver(st, e, true).asm, evs + [e])
    ensures ps != [] && qs != [] && qs[0] == ps[0]
  {
    var n := |ps| - 1;
    SourcesMore(ps, st.curImage, evs, e);
    assert IsPieceOf(ps[n], st.curImage[n], evs + [e]);
    assert (evs + [e])[|evs|] == e;
    var q, p := RepairedPieces(ps[n], st.curImage[n], e.input, evs + [e]);
    var trimmed := ps[..n] + [q];
    JoinsTrim(ps, q.hi);
    JoinsSnoc(trimmed, p);
    qs := trimmed + [p];
  }

  /** The start packet accepted last, if there was one. */
  function Begun(evs: seq<Event>, fix: bool): (b: Option<Input>)
    ensures b.Some? ==> b.value.Start?
  {
    if evs == [] then None
    else
      var n := |evs| - 1;
      var st, e := Run(INITIAL, evs[..n], fix).asm, evs[n];
      if e.input.Start? && !(Emits(st, e.input) && e.raises) then Some(e.input) else Begun(evs[..n], fix)
  }

  /** The image begins with the first chunk that came with the start packet.  Before one is
      accepted it is empty, or begins with a continuation with id 1. */
  predicate BeginsWith(ps: seq<Piece>, start: Option<Input>, rcvSeqId: nat) {
    match start
    case Some(i) => i.Start? && ps != [] && ps[0] == WholePiece(i)
    case None => if ps == [] then rcvSeqId == 0 else ps[0].id == 1
  }

  /** Main result: in every reachable state, fixing on or off, the image is made of slices
      of delivered payloads with strictly increasing ids, from the start packet accepted
      last on; a join is cut if and only if its ids are not consecutive. */
  lemma {:induction false} ImageHasProvenance(evs: seq<Event>, fix: bool) returns (ps: seq<Piece>)
    ensures Describes(ps, Run(INITIAL, evs, fix).asm, evs)
    ensures BeginsWith(ps, Begun(evs, fix), Run(INITIAL, evs, fix).asm.rcvSeqId)
    ensures !fix ==> !SomeCut(ps)
  {
    hide Describes;
    if evs == [] {
      ps := [];
      NothingYet();
    } else {
      var n := |evs| - 1;
      var st, e := Run(INITIAL, evs[..n], fix).asm, evs[n];
      ps := ImageHasProvenance(evs[..n], fix);
      assert evs[..n] + [e] == evs;
      ps := NextPieces(ps, st, evs[..n], e, fix);
    }
  }

  lemma {:induction false} NothingYet()
    ensures Describes([], INITIAL, []) && !SomeCut([])
  {
  }

  lemma {:induction false} NextPieces(ps: seq<Piece>, st: Asm, evs: seq<Event>, e: Event, fix: bool)
    returns (qs: seq<Piece>)
    requires Describes(ps, st, evs)
    ensures Describes(qs, Deliver(st, e, fix).asm, evs + [e])
    ensures var after := Deliver(st, e, fix).asm.rcvSeqId;
            if e.input.Start? && !(Emits(st, e.input) && e.raises) then BeginsWith(qs, Some(e.input), after)
            else if ps != [] then qs != [] && qs[0] == ps[0]
            else if qs == [] then after == st.rcvSeqId
            else qs[0].id == st.rcvSeqId + 1
    ensures !fix && !SomeCut(ps) ==> !SomeCut(qs)
  {
    if e.input.Start? && !(Emits(st, e.input) && e.raises) {
      qs := [WholePiece(e.input)];
      assert (evs + [e])[|evs|] == e;
    } else if InOrder(st, e.input) {
      DescribesInOrder(ps, st, evs, e);
      qs := ps + [WholePiece(e.input)];
      JoinsSnoc(ps, WholePiece(e.input));
    } else if fix && Repairable(st, e.input) {
      qs := DescribesRepaired(ps, st, evs, e);
    } else {
      qs := ps;
      SourcesMore(ps, st.curImage, evs, e);
    }
  }

  /** The same for every image handed to the listeners: it is the image of a state of the
      run that is not marked bad, so that an image with a gap is emitted only repaired. */
  lemma {:induction false} EmittedImageHasProvenance(evs: seq<Event>, i: nat, fix: bool, image: Image)
    returns (ps: seq<Piece>)
    requires i < |evs|
    requires image in Deliver(Run(INITIAL, evs[..i], fix).asm, evs[i], fix).emitted
    ensures var st := Run(INITIAL, evs[..i], fix).asm;
            && image == st.curImage && !st.frameIsBad
            && Describes(ps, st, evs[..i]) && (!fix ==> !SomeCut(ps))
  {
    ps := ImageHasProvenance(evs[..i], fix);
  }

  /** Ids increase along the whole image, not just from one piece to the next. */
  lemma {:induction false} IdsIncrease(ps: seq<Piece>, st: Asm, evs: seq<Event>, i: nat, j: nat)
    requires Describes(ps, st, evs) && i < j < |ps|
    ensures ps[i].id < ps[j].id
    decreases j
  {
    assert JoinAt(ps, j - 1);
    if i < j - 1 {
      IdsIncrease(ps, st, evs, i, j - 1);
    }
  }
}
