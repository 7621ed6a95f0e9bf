/** When an emitted image is the whole frame: runs with packet-loss fixing off, from an
    accepted start packet to the arrival of the next one, against what the network did. */
module WholeFrames {
  import opened Bytes
  import opened FrameAssembler
  import opened AssemblerRuns

  /** Delivery `j` is a start packet that begins a new image. */
  predicate StartAccepted(sent: seq<Input>, ds: seq<Delivery>, j: nat)
    requires ValidDeliveries(sent, ds)
  {
    && j < |ds| && ds[j].Video? && sent[ds[j].t].Start?
    && !(Emits(After(sent, ds[..j]).asm, sent[ds[j].t]) && ds[j].raises)
  }

  /** No start packet arrives after delivery `j` and before delivery `n`. */
  predicate NoStartBetween(sent: seq<Input>, ds: seq<Delivery>, j: nat, n: nat)
    requires ValidDeliveries(sent, ds) && n <= |ds|
  {
    forall i :: j < i < n && ds[i].Video? ==> !sent[ds[i].t].Start?
  }

  /** Packet `t` is among the deliveries from `j` to before `n`. */
  predicate Arrived(ds: seq<Delivery>, j: nat, n: nat, t: nat)
    requires n <= |ds|
  {
    exists i :: j <= i < n && ds[i].Video? && ds[i].t == t
  }

  /** When delivery `i` arrives, all packets sent between the start packet that was delivery
      `j` and this one have arrived. */
  predicate NothingMissing(ds: seq<Delivery>, j: nat, i: nat)
    requires j < i < |ds| && ds[j].Video? && ds[i].Video?
  {
    forall k :: ds[j].t < k < ds[i].t ==> Arrived(ds, j, i, k)
  }

  /** From delivery `j` to before `n`, no packet overtakes an earlier one. */
  predicate InTurn(ds: seq<Delivery>, j: nat, n: nat)
    requires j < n <= |ds| && ds[j].Video?
  {
    forall i :: j < i < n && ds[i].Video? ==> NothingMissing(ds, j, i)
  }

  lemma {:induction false} ArrivedSnoc(ds: seq<Delivery>, j: nat, n: nat, t: nat)
    requires j <= n < |ds|
    ensures Arrived(ds, j, n + 1, t) <==> Arrived(ds, j, n, t) || (ds[n].Video? && ds[n].t == t)
  {
  }

  lemma {:induction false} InTurnSnoc(ds: seq<Delivery>, j: nat, n: nat)
    requires j < n < |ds| && ds[j].Video?
    ensures InTurn(ds, j, n + 1) <==> InTurn(ds, j, n) && (ds[n].Video? ==> NothingMissing(ds, j, n))
  {
  }

  /** The ids of all packets delivered from `j` to before `n` are on the same side of a wrap.
      Ids may wrap before, after, and in the frame itself. */
  predicate NoWrapBetween(base: nat, ds: seq<Delivery>, j: nat, n: nat)
    requires j < n <= |ds| && ds[j].Video?
  {
    forall i :: j < i < n && ds[i].Video? ==> (base + ds[i].t) / 0x1_0000 == (base + ds[j].t) / 0x1_0000
  }

  /** What the deliveries `j` to before `n` of a run have made of the frame begun at `j`:
      packets up to `last` are in the image. */
  ghost predicate Collected(sent: seq<Input>, base: nat, ds: seq<Delivery>, j: nat, n: nat, st: Asm, last: nat)
    requires WellSent(sent, base) && j < n <= |ds| && ds[j].Video?
  {
    && ds[j].t <= last < |sent| && IsSentFrame(sent, ds[j].t, last)
    && (base + last) / 0x1_0000 == (base + ds[j].t) / 0x1_0000
    && st.rcvSeqId == sent[last].id && st.curImage == Payloads(sent, ds[j].t, last)
    && (!st.frameIsBad <==> InTurn(ds, j, n))
    && (!st.frameIsBad ==> forall k :: ds[j].t < k ==> (Arrived(ds, j, n, k) <==> k <= last))
  }

  /** On one side of a wrap, ids are ordered as the packets are. */
  lemma {:induction false} IdsAreOrdered(base: nat, t: nat, last: nat)
    requires (base + t) / 0x1_0000 == (base + last) / 0x1_0000
    ensures (base + t) % 0x1_0000 - (base + last) % 0x1_0000 == t - last
  {
  }

  /** One more delivery: the next packet, an old one, or one across a gap. */
  lemma {:induction false} CollectedStep(sent: seq<Input>, base: nat, ds: seq<Delivery>, j: nat, n: nat, st: Asm,
                                         last: nat)
    returns (last': nat)
    requires WellSent(sent, base) && ValidDeliveries(sent, ds) && j < n < |ds| && ds[j].Video?
    requires ds[n].Video? ==> !sent[ds[n].t].Start? && (base + ds[n].t) / 0x1_0000 == (base + ds[j].t) / 0x1_0000
    requires Collected(sent, base, ds, j, n, st, last)
    ensures Collected(sent, base, ds, j, n + 1, Deliver(st, ToEvent(sent, ds[n]), false).asm, last')
  {
    hide Arrived, InTurn, NothingMissing;
    var m := n + 1;
    forall k: nat
      ensures Arrived(ds, j, m, k) <==> Arrived(ds, j, n, k) || (ds[n].Video? && ds[n].t == k)
    {
      ArrivedSnoc(ds, j, n, k);
    }
    InTurnSnoc(ds, j, n);
    assert ValidDelivery(sent, ds[n]);
    last' := last;
    if ds[n].Video? {
      var t := ds[n].t;
      IdsAreOrdered(base, t, last);
      assert sent[t].Continuation? && sent[t].id - st.rcvSeqId == t - last;
      if !st.frameIsBad {
        MissingIff(ds, j, n, last);
      }
      if t == last + 1 {
        last' := t;
        assert Payloads(sent, ds[j].t, t) == Payloads(sent, ds[j].t, last) + [sent[t].data];
      }
    }
  }

  lemma {:induction false} MissingIff(ds: seq<Delivery>, j: nat, n: nat, last: nat)
    requires j < n < |ds| && ds[j].Video? && ds[n].Video? && ds[j].t <= last
    requires forall k :: ds[j].t < k ==> (Arrived(ds, j, n, k) <==> k <= last)
    ensures NothingMissing(ds, j, n) <==> ds[n].t <= last + 1
  {
    if ds[n].t > last + 1 {
      assert !Arrived(ds, j, n, last + 1);
    }
  }

  lemma {:induction false} CollectedSince(sent: seq<Input>, base: nat, ds: seq<Delivery>, j: nat, n: nat)
    returns (last: nat)
    requires WellSent(sent, base) && ValidDeliveries(sent, ds) && StartAccepted(sent, ds, j)
    requires j < n <= |ds| && NoStartBetween(sent, ds, j, n) && NoWrapBetween(base, ds, j, n)
    ensures Collected(sent, base, ds, j, n, After(sent, ds[..n]).asm, last)
  {
    hide Collected, Deliver;
    assert ds[..n][..n - 1] == ds[..n - 1];
    AfterStep(sent, ds[..n]);
    if n == j + 1 {
      last := ds[j].t;
      CollectedAtStart(sent, base, ds, j);
    } else {
      last := CollectedSince(sent, base, ds, j, n - 1);
      last := CollectedStep(sent, base, ds, j, n - 1, After(sent, ds[..n - 1]).asm, last);
    }
  }

  lemma {:induction false} CollectedAtStart(sent: seq<Input>, base: nat, ds: seq<Delivery>, j: nat)
    requires WellSent(sent, base) && ValidDeliveries(sent, ds) && StartAccepted(sent, ds, j)
    ensures var st := After(sent, ds[..j]).asm;
            Collected(sent, base, ds, j, j + 1, Deliver(st, ToEvent(sent, ds[j]), false).asm, ds[j].t)
  {
    assert ValidDelivery(sent, ds[j]);
  }

  /** `s..e` is a frame as sent, to its end. */
  predicate WholeFrame(sent: seq<Input>, s: nat, e: nat) {
    IsSentFrame(sent, s, e) && (e + 1 < |sent| ==> !sent[e + 1].Continuation?)
  }

  lemma {:induction false} LastIsInFrame(sent: seq<Input>, s: nat, last: nat, e: nat)
    requires IsSentFrame(sent, s, last) && WholeFrame(sent, s, e)
    ensures last <= e
  {
  }

  /** Main result on completeness.  Between an accepted start packet and the next start
      packet to arrive, if the ids of what arrives in between do not wrap: something is
      emitted if and only if no packet overtook an earlier one, and what is emitted is the
      whole frame if and only if its last packet came, too.  Nothing else is looked at, so a
      lost tail goes unnoticed. */
  lemma {:induction false} EmittedIsWholeFrameIff(sent: seq<Input>, base: nat, ds: seq<Delivery>, j: nat, n: nat,
                                                  e: nat)
    requires WellSent(sent, base) && ValidDeliveries(sent, ds) && StartAccepted(sent, ds, j)
    requires j < n < |ds| && NoStartBetween(sent, ds, j, n) && NoWrapBetween(base, ds, j, n)
    requires ds[n].Video? && sent[ds[n].t].Start? && WholeFrame(sent, ds[j].t, e)
    ensures var emitted := Deliver(After(sent, ds[..n]).asm, ToEvent(sent, ds[n]), false).emitted;
            && (emitted != [] <==> InTurn(ds, j, n))
            && (emitted == [Payloads(sent, ds[j].t, e)] <==> InTurn(ds, j, n) && Arrived(ds, j, n, e))
  {
    hide InTurn, Payloads;
    var s := ds[j].t;
    var last := CollectedSince(sent, base, ds, j, n);
    LastIsInFrame(sent, s, last, e);
    assert Arrived(ds, j, n, s);
    assert InTurn(ds, j, n) ==> (last == e <==> Arrived(ds, j, n, e));
  }

  /** The smallest run in which a tail is lost unnoticed: the next start packet emits the
      beginning of the frame as a complete image. */
  lemma {:induction false} LostTailIsEmitted(a: Chunk, b: Chunk, c: Chunk)
    ensures var sent := [Start(0, a), Continuation(1, b), Start(2, c)];
            var ds := [Video(0, false), Video(2, false)];
            && NoWrap(sent, 0) && StartAccepted(sent, ds, 0) && WholeFrame(sent, 0, 1) && !Arrived(ds, 0, 1, 1)
            && After(sent, ds).emitted == [[a]]
  {
    var sent := [Start(0, a), Continuation(1, b), Start(2, c)];
    var ds := [Video(0, false), Video(2, false)];
    assert ds[..1][..0] == [] && ds[..1] == [Video(0, false)] && ds[..0] == [];
    AfterStep(sent, ds[..1]);
    AfterStep(sent, ds);
  }
}
