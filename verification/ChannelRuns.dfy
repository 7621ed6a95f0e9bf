/** Every run of the command channel: which commands are still held, under which id, for
    how long, and in which order. */
module ChannelRuns {
  import opened Bytes
  import opened Channel

  predicate HoldsData<H(==)>(u: seq<Pending<H>>, data: H) {
    exists i :: 0 <= i < |u| && u[i].data == data
  }

  lemma {:induction false} PopElements<H>(u: seq<Pending<H>>, key: nat)
    requires UniqueKeys(u)
    ensures forall k :: 0 <= k < |Pop(u, key)| ==> Pop(u, key)[k] in u && Pop(u, key)[k].key != key
    ensures forall k :: 0 <= k < |u| && u[k].key != key ==> u[k] in Pop(u, key)
  {
    if u != [] {
      var t := u[1..];
      assert forall k :: 0 <= k < |t| ==> t[k] == u[k + 1];
      PopElements(t, key);
      if u[0].key != key {
        var p := Pop(t, key);
        assert Pop(u, key) == [u[0]] + p;
        forall k | 0 <= k < |u| && u[k].key != key
          ensures u[k] in Pop(u, key)
        {
          if k > 0 { assert t[k - 1] in p; }
        }
      }
    }
  }

  lemma {:induction false} PopKeepsUnique<H>(u: seq<Pending<H>>, key: nat)
    requires UniqueKeys(u) && DistinctData(u)
    ensures UniqueKeys(Pop(u, key)) && DistinctData(Pop(u, key))
  {
    if u != [] && u[0].key != key {
      var t := u[1..];
      assert forall k :: 0 <= k < |t| ==> t[k] == u[k + 1];
      PopKeepsUnique(t, key);
      PopElements(t, key);
      UniqueCons(u[0], t, Pop(t, key));
    }
  }

  lemma {:induction false} UniqueCons<H>(e: Pending<H>, t: seq<Pending<H>>, p: seq<Pending<H>>)
    requires forall k :: 0 <= k < |t| ==> t[k].key != e.key && t[k].data != e.data
    requires forall k :: 0 <= k < |p| ==> p[k] in t
    requires UniqueKeys(p) && DistinctData(p)
    ensures UniqueKeys([e] + p) && DistinctData([e] + p)
  {
  }

  lemma {:induction false} PopKeeps<H>(u: seq<Pending<H>>, key: nat)
    requires UniqueKeys(u) && DistinctData(u)
    ensures UniqueKeys(Pop(u, key)) && DistinctData(Pop(u, key))
    ensures forall k :: 0 <= k < |Pop(u, key)| ==> Pop(u, key)[k] in u && Pop(u, key)[k].key != key
    ensures forall k :: 0 <= k < |u| && u[k].key != key ==> u[k] in Pop(u, key)
  {
    PopKeepsUnique(u, key);
    PopElements(u, key);
  }

  lemma {:induction false} PutKeeps<H>(u: seq<Pending<H>>, e: Pending<H>)
    requires UniqueKeys(u) && DistinctData(u)
    requires forall i :: 0 <= i < |u| && u[i].data == e.data ==> u[i].key == e.key
    ensures UniqueKeys(Put(u, e)) && DistinctData(Put(u, e))
    ensures e in Put(u, e)
    ensures forall k :: 0 <= k < |Put(u, e)| ==> Put(u, e)[k] == e || (Put(u, e)[k] in u && Put(u, e)[k].key != e.key)
    ensures forall k :: 0 <= k < |u| && u[k].key != e.key ==> u[k] in Put(u, e)
  {
    if i :| 0 <= i < |u| && u[i].key == e.key {
      PutAt(u, e, i);
      var v := u[i := e];
      assert v[i] == e;
      assert forall k :: 0 <= k < |u| && k != i ==> v[k] == u[k];
    } else {
      PutAbsent(u, e);
      assert (u + [e])[|u|] == e;
      assert forall k :: 0 <= k < |u| ==> (u + [e])[k] == u[k];
    }
  }

  // -- one round, whatever clashes -------------------------------------------

  predicate ClockFrom(now: real, clock: nat -> real, n: nat) {
    forall k :: 0 <= k < n ==> now <= clock(k)
  }

  /** In the middle of a round: an entry is one of the snapshot whose turn has not come,
      or it holds a command of the snapshot dealt with before. */
  ghost predicate Accounted<H>(u: seq<Pending<H>>, e: Pending<H>, i: nat)
    requires i <= |u|
  {
    (exists j :: i <= j < |u| && e == u[j])
    || (e.key < 0x1_0000 && exists j :: 0 <= j < i && e.data == u[j].data)
  }

  ghost predicate MidRound<H>(c: Chan<H>, p: Chan<H>, i: nat)
    requires i <= |c.unacked|
  {
    && UniqueKeys(p.unacked) && DistinctData(p.unacked)
    && forall k :: 0 <= k < |p.unacked| ==> Accounted(c.unacked, p.unacked[k], i)
  }

  /** Only entries whose turn has not come are aged. */
  ghost predicate AgedToCome<H>(u: seq<Pending<H>>, v: seq<Pending<H>>, now: real, i: nat)
    requires i <= |u|
  {
    forall k :: 0 <= k < |v| && Aged(v[k], now) ==> exists j :: i <= j < |u| && v[k] == u[j]
  }

  lemma {:induction false} TickMidRound<H>(c: Chan<H>, now: real, clock: nat -> real, i: nat)
    requires WellFormed(c) && i <= |c.unacked|
    ensures MidRound(c, TickUpTo(c, now, clock, i), i)
  {
    var u := c.unacked;
    if i > 0 {
      TickMidRound(c, now, clock, i - 1);
      var p, e := TickUpTo(c, now, clock, i - 1), u[i - 1];
      if Aged(e, now) {
        MidRoundResend(c, p, clock(i - 1), i - 1);
      } else {
        forall k | 0 <= k < |p.unacked|
          ensures Accounted(u, p.unacked[k], i)
        {
          assert Accounted(u, p.unacked[k], i - 1);
        }
      }
    }
  }

  /** Taking entry `i` out by its key takes its command out, whoever holds that key by now. */
  lemma {:induction false} PoppedLacks<H>(c: Chan<H>, p: Chan<H>, i: nat)
    requires WellFormed(c) && i < |c.unacked| && MidRound(c, p, i)
    ensures forall k :: 0 <= k < |Pop(p.unacked, c.unacked[i].key)| ==>
      Pop(p.unacked, c.unacked[i].key)[k].data != c.unacked[i].data
  {
    var u, e := c.unacked, c.unacked[i];
    var popped := Pop(p.unacked, e.key);
    PopElements(p.unacked, e.key);
    forall k | 0 <= k < |popped|
      ensures popped[k].data != e.data
    {
      var j :| 0 <= j < |p.unacked| && p.unacked[j] == popped[k];
      assert Accounted(u, p.unacked[j], i);
    }
  }

  lemma {:induction false} MidRoundResend<H>(c: Chan<H>, p: Chan<H>, ts: real, i: nat)
    requires WellFormed(c) && i < |c.unacked| && MidRound(c, p, i)
    ensures MidRound(c, Resend(p, c.unacked[i], ts), i + 1)
    ensures forall k :: 0 <= k < |Resend(p, c.unacked[i], ts).unacked| ==>
      var x := Resend(p, c.unacked[i], ts).unacked[k];
      (x in p.unacked && x != c.unacked[i]) || x.sentTs == ts
  {
    var u, e := c.unacked, c.unacked[i];
    var popped, renumbered := Pop(p.unacked, e.key), Pending(p.nextId % 0x1_0000, ts, e.data);
    PopKeeps(p.unacked, e.key);
    assert Accounted(u, renumbered, i + 1) by {
      assert renumbered.data == u[i].data;
    }
    PoppedLacks(c, p, i);
    forall k | 0 <= k < |popped|
      ensures Accounted(u, popped[k], i + 1)
    {
      var j :| 0 <= j < |p.unacked| && p.unacked[j] == popped[k];
      assert Accounted(u, p.unacked[j], i);
    }
    PutKeeps(popped, renumbered);
  }

  lemma {:induction false} TickAgedToCome<H>(c: Chan<H>, now: real, clock: nat -> real, i: nat)
    requires WellFormed(c) && i <= |c.unacked| && ClockFrom(now, clock, i)
    ensures AgedToCome(c.unacked, TickUpTo(c, now, clock, i).unacked, now, i)
  {
    hide Resend, MidRound;
    if i > 0 {
      TickAgedToCome(c, now, clock, i - 1);
      TickMidRound(c, now, clock, i - 1);
      if Aged(c.unacked[i - 1], now) {
        ResentIsNotAged(c, TickUpTo(c, now, clock, i - 1), now, clock(i - 1), i - 1);
      } else {
        UnagedPasses(c.unacked, TickUpTo(c, now, clock, i - 1).unacked, now, i - 1);
      }
    }
  }

  lemma {:induction false} UnagedPasses<H>(u: seq<Pending<H>>, v: seq<Pending<H>>, now: real, i: nat)
    requires i < |u| && !Aged(u[i], now) && AgedToCome(u, v, now, i)
    ensures AgedToCome(u, v, now, i + 1)
  {
    forall k | 0 <= k < |v| && Aged(v[k], now)
      ensures exists j :: i + 1 <= j < |u| && v[k] == u[j]
    {
      var j :| i <= j < |u| && v[k] == u[j];
      assert j != i;
    }
  }

  lemma {:induction false} ResentIsNotAged<H>(c: Chan<H>, p: Chan<H>, now: real, ts: real, i: nat)
    requires WellFormed(c) && i < |c.unacked| && MidRound(c, p, i) && now <= ts
    requires AgedToCome(c.unacked, p.unacked, now, i)
    ensures AgedToCome(c.unacked, Resend(p, c.unacked[i], ts).unacked, now, i + 1)
  {
    var u, v := c.unacked, Resend(p, c.unacked[i], ts).unacked;
    MidRoundResend(c, p, ts, i);
    forall k | 0 <= k < |v| && Aged(v[k], now)
      ensures exists j :: i + 1 <= j < |u| && v[k] == u[j]
    {
      var m :| 0 <= m < |p.unacked| && p.unacked[m] == v[k];
      var j :| i <= j < |u| && p.unacked[m] == u[j];
      assert j != i;
    }
  }

  /** After any round, whatever clashes: keys and commands are still unique and every
      command is one that was there before.  If the clock does not go back, none was last
      sent more than 100 ms before the round. */
  lemma {:induction false} TickKeepsWellFormed<H>(c: Chan<H>, now: real, clock: nat -> real)
    requires WellFormed(c)
    ensures WellFormed(Tick(c, now, clock))
    ensures var t := Tick(c, now, clock).unacked;
            forall k :: 0 <= k < |t| ==> HoldsData(c.unacked, t[k].data)
    ensures var t := Tick(c, now, clock).unacked;
            ClockFrom(now, clock, |c.unacked|) ==> forall k :: 0 <= k < |t| ==> now - t[k].sentTs <= RESEND_AFTER_MS
  {
    var n := |c.unacked|;
    TickMidRound(c, now, clock, n);
    if ClockFrom(now, clock, n) {
      TickAgedToCome(c, now, clock, n);
    }
    var t := Tick(c, now, clock).unacked;
    forall k | 0 <= k < |t|
      ensures HoldsData(c.unacked, t[k].data) && t[k].key < 0x1_0000
    {
      assert Accounted(c.unacked, t[k], n);
    }
  }

  // -- order ---------------------------------------------------------------------

  /** Insertion order is the order of ids and of sending times. */
  predicate Ordered<H>(u: seq<Pending<H>>) {
    forall i, j :: 0 <= i < j < |u| ==> u[i].key < u[j].key && u[i].sentTs <= u[j].sentTs
  }

  predicate ClockMonotone(clock: nat -> real, n: nat) {
    forall i, j :: 0 <= i <= j < n ==> clock(i) <= clock(j)
  }

  lemma {:induction false} UnagedOrdered<H>(u: seq<Pending<H>>, now: real)
    requires Ordered(u)
    ensures Ordered(Unaged(u, now))
  {
    if u != [] {
      var n := |u| - 1;
      UnagedOrdered(u[..n], now);
      var a := Unaged(u[..n], now);
      UnagedBefore(u, now, n, a);
      OrderedSnoc(a, u[n]);
    }
  }

  lemma {:induction false} OrderedSnoc<H>(a: seq<Pending<H>>, e: Pending<H>)
    requires Ordered(a)
    requires forall k :: 0 <= k < |a| ==> a[k].key < e.key && a[k].sentTs <= e.sentTs
    ensures Ordered(a + [e])
  {
  }

  /** What is kept of the first `n` entries lies before entry `n`. */
  lemma {:induction false} UnagedBefore<H>(u: seq<Pending<H>>, now: real, n: nat, a: seq<Pending<H>>)
    requires Ordered(u) && n < |u| && a == Unaged(u[..n], now)
    ensures forall k :: 0 <= k < |a| ==> a[k].key < u[n].key && a[k].sentTs <= u[n].sentTs
  {
    UnagedIsSub(u[..n], now);
    forall k | 0 <= k < |a|
      ensures a[k].key < u[n].key && a[k].sentTs <= u[n].sentTs
    {
      var j :| 0 <= j < n && u[..n][j] == a[k];
      assert u[j] == a[k];
    }
  }

  lemma {:induction false} RenumberedOrdered<H>(c: Chan<H>, now: real, clock: nat -> real, i: nat)
    requires i <= |c.unacked| && ClockMonotone(clock, |c.unacked|) && ClockFrom(now, clock, |c.unacked|)
    requires c.nextId + AgedCount(c.unacked, now) <= 0x1_0000
    ensures Ordered(Renumbered(c, now, clock, i))
    ensures forall k :: 0 <= k < |Renumbered(c, now, clock, i)| ==>
      var e := Renumbered(c, now, clock, i)[k];
      c.nextId <= e.key && now <= e.sentTs && (i > 0 && e.sentTs <= clock(i - 1))
  {
    hide Ordered;
    if i == 0 {
      OrderedEmpty<H>();
    } else {
      RenumberedOrdered(c, now, clock, i - 1);
      RenumberedKeys(c, now, clock, i - 1);
      if Aged(c.unacked[i - 1], now) {
        var r, r' := Renumbered(c, now, clock, i - 1), Renumbered(c, now, clock, i);
        RenumberedKeys(c, now, clock, i);
        var n := |r'| - 1;
        assert r'[n].key == c.nextId + n;
        assert r' == r + [r'[n]];
        OrderedSnoc(r, r'[n]);
      }
    }
  }

  lemma {:induction false} OrderedEmpty<H>()
    ensures Ordered<H>([])
  {
  }

  /** Ids that have not wrapped: consecutive keys. */
  lemma {:induction false} RenumberedKeys<H>(c: Chan<H>, now: real, clock: nat -> real, i: nat)
    requires i <= |c.unacked| && c.nextId + AgedCount(c.unacked, now) <= 0x1_0000
    ensures var r := Renumbered(c, now, clock, i);
            && (i > 0 && Aged(c.unacked[i - 1], now) ==> r != [])
            && forall j :: 0 <= j < |r| ==> r[j].key == c.nextId + j
  {
    RenumberedShape(c, now, clock, i);
    AgedCountGrows(c.unacked, now, i);
    var r := Renumbered(c, now, clock, i);
    forall j | 0 <= j < |r|
      ensures r[j].key == c.nextId + j
    {
      FitsU16(c.nextId + j);
    }
  }

  lemma {:induction false} AgedCountGrows<H>(u: seq<Pending<H>>, now: real, i: nat)
    requires i <= |u|
    ensures AgedCount(u[..i], now) <= AgedCount(u, now)
    ensures i < |u| && Aged(u[i], now) ==> AgedCount(u[..i], now) < AgedCount(u, now)
  {
    if i == |u| {
      assert u[..i] == u;
    } else {
      AgedCountGrows(u[..|u| - 1], now, i);
      assert u[..|u| - 1][..i] == u[..i];
    }
  }

  /** Ids that have not wrapped: a round hands out only ids that nobody holds. */
  lemma {:induction false} NoWrapNoClash<H>(c: Chan<H>, now: real)
    requires forall i :: 0 <= i < |c.unacked| ==> c.unacked[i].key < c.nextId
    requires c.nextId + AgedCount(c.unacked, now) <= 0x1_0000
    ensures NoClash(c, now)
  {
    var u := c.unacked;
    forall i | 0 <= i < |u|
      ensures !ClashAt(c, now, i)
    {
      AgedCountGrows(u, now, i);
      if Aged(u[i], now) {
        FitsU16(c.nextId + AgedCount(u[..i], now));
      }
      UnagedIsSub(u[..i], now);
      var a, b := Unaged(u[..i], now), u[i + 1..];
      forall k | 0 <= k < |a|
        ensures a[k].key < c.nextId
      {
        var j :| 0 <= j < i && u[..i][j] == a[k];
        assert u[j] == a[k];
      }
      assert forall k :: 0 <= k < |a + b| ==> (a + b)[k].key < c.nextId;
    }
  }

  lemma {:induction false} OrderedConcat<H>(a: seq<Pending<H>>, b: seq<Pending<H>>, id: nat, now: real)
    requires Ordered(a) && Ordered(b)
    requires forall k :: 0 <= k < |a| ==> a[k].key < id && a[k].sentTs <= now
    requires forall k :: 0 <= k < |b| ==> id <= b[k].key && now <= b[k].sentTs
    ensures Ordered(a + b)
  {
  }

  /** While ids do not wrap and the clock does not go back, nothing clashes and a round
      keeps the dictionary ascending in both id and sending time. */
  lemma {:induction false} TickKeepsOrder<H>(c: Chan<H>, now: real, clock: nat -> real)
    requires WellFormed(c) && Ordered(c.unacked)
    requires forall i :: 0 <= i < |c.unacked| ==> c.unacked[i].key < c.nextId && c.unacked[i].sentTs <= now
    requires c.nextId + AgedCount(c.unacked, now) <= 0x1_0000
    requires ClockFrom(now, clock, |c.unacked|) && ClockMonotone(clock, |c.unacked|)
    ensures NoClash(c, now)
    ensures Ordered(Tick(c, now, clock).unacked)
  {
    var u := c.unacked;
    NoWrapNoClash(c, now);
    TickClosedForm(c, now, clock);
    UnagedOrdered(u, now);
    RenumberedOrdered(c, now, clock, |u|);
    UnagedIsSub(u, now);
    var a := Unaged(u, now);
    forall k | 0 <= k < |a|
      ensures a[k].key < c.nextId && a[k].sentTs <= now
    {
      var j :| 0 <= j < |u| && u[j] == a[k];
    }
    OrderedConcat(a, Renumbered(c, now, clock, |u|), c.nextId, now);
  }

  // -- runs ------------------------------------------------------------------------

  datatype Step<H> =
    | BuildStep
    | SendStep(data: H, id: nat, ts: real)      // `id` is what the packet holds at bytes 6-7
    | AckStep(id: nat)
    | TickStep(now: real, clock: nat -> real)

  ghost function Next<H>(c: Chan<H>, s: Step<H>): Chan<H> {
    match s
    case BuildStep => Build(c)
    case SendStep(data, id, ts) => Send(c, data, id, ts)
    case AckStep(id) => Ack(c, id)
    case TickStep(now, clock) => Tick(c, now, clock)
  }

  /** No id is in the hands of two commands: a packet is sent under an id that no other
      waiting command has, and no round clashes. */
  ghost predicate StepOk<H>(c: Chan<H>, s: Step<H>) {
    match s
    case BuildStep => true
    case SendStep(data, id, _) =>
      id < 0x1_0000 && forall i :: 0 <= i < |c.unacked| ==> (c.unacked[i].key == id <==> c.unacked[i].data == data)
    case AckStep(_) => true
    case TickStep(now, _) => NoClash(c, now)
  }

  /** What every session meets, clashing ids or not: an id in a packet has 16 bits, and a
      command that is sent while it waits is sent under the id it waits under. */
  predicate SendFits<H(==)>(c: Chan<H>, s: Step<H>) {
    s.SendStep? ==>
      s.id < 0x1_0000 && forall i :: 0 <= i < |c.unacked| && c.unacked[i].data == s.data ==> c.unacked[i].key == s.id
  }

  ghost predicate SendsFit<H>(c: Chan<H>, steps: seq<Step<H>>)
    decreases |steps|
  {
    steps == [] || (SendFits(c, steps[0]) && SendsFit(Next(c, steps[0]), steps[1..]))
  }

  ghost function RunSteps<H>(c: Chan<H>, steps: seq<Step<H>>): Chan<H>
    decreases |steps|
  {
    if steps == [] then c else RunSteps(Next(c, steps[0]), steps[1..])
  }

  ghost predicate RunOk<H>(c: Chan<H>, steps: seq<Step<H>>)
    decreases |steps|
  {
    steps == [] || (StepOk(c, steps[0]) && RunOk(Next(c, steps[0]), steps[1..]))
  }

  /** The id under which a command waits: its latest. */
  ghost predicate WaitsUnder<H>(c: Chan<H>, data: H, id: nat) {
    exists i :: 0 <= i < |c.unacked| && c.unacked[i].data == data && c.unacked[i].key == id
  }

  predicate Waits<H(==)>(c: Chan<H>, data: H) {
    HoldsData(c.unacked, data)
  }

  /** At some step the command was acknowledged under the id it had at that moment. */
  ghost predicate AckedUnderLatestId<H>(c: Chan<H>, steps: seq<Step<H>>, data: H)
    decreases |steps|
  {
    steps != []
    && ((steps[0].AckStep? && WaitsUnder(c, data, steps[0].id))
        || AckedUnderLatestId(Next(c, steps[0]), steps[1..], data))
  }

  lemma {:induction false} RenumberedHolds<H>(c: Chan<H>, now: real, clock: nat -> real, i: nat)
    requires i <= |c.unacked|
    ensures forall k :: 0 <= k < i && Aged(c.unacked[k], now) ==>
      HoldsData(Renumbered(c, now, clock, i), c.unacked[k].data)
  {
    if i > 0 {
      RenumberedHolds(c, now, clock, i - 1);
      var r, before := Renumbered(c, now, clock, i), Renumbered(c, now, clock, i - 1);
      assert forall k :: 0 <= k < |before| ==> r[k] == before[k];
      assert Aged(c.unacked[i - 1], now) ==> r[|before|].data == c.unacked[i - 1].data;
    }
  }

  /** A round without a clash loses no command, and adds none. */
  lemma {:induction false} TickHolds<H>(c: Chan<H>, now: real, clock: nat -> real, data: H)
    requires WellFormed(c) && NoClash(c, now)
    ensures Waits(Tick(c, now, clock), data) <==> Waits(c, data)
  {
    TickKeepsWellFormed(c, now, clock);
    if k :| 0 <= k < |c.unacked| && c.unacked[k].data == data {
      TickClosedForm(c, now, clock);
      StillThere(c, now, clock, k);
    }
  }

  lemma {:induction false} StillThere<H>(c: Chan<H>, now: real, clock: nat -> real, k: nat)
    requires k < |c.unacked|
    ensures HoldsData(Unaged(c.unacked, now) + Renumbered(c, now, clock, |c.unacked|), c.unacked[k].data)
  {
    var a, r := Unaged(c.unacked, now), Renumbered(c, now, clock, |c.unacked|);
    if Aged(c.unacked[k], now) {
      RenumberedHolds(c, now, clock, |c.unacked|);
      var i :| 0 <= i < |r| && r[i].data == c.unacked[k].data;
      assert (a + r)[|a| + i].data == c.unacked[k].data;
    } else {
      UnagedIsSub(c.unacked, now);
      var i :| 0 <= i < |a| && a[i] == c.unacked[k];
      assert (a + r)[i].data == c.unacked[k].data;
    }
  }

  lemma {:induction false} RenumberedAt<H>(c: Chan<H>, now: real, clock: nat -> real, i: nat, k: nat)
    requires k < i <= |c.unacked| && Aged(c.unacked[k], now)
    ensures Pending(NewId(c, now, k), clock(k), c.unacked[k].data) in Renumbered(c, now, clock, i)
  {
    var e := Pending(NewId(c, now, k), clock(k), c.unacked[k].data);
    if k < i - 1 {
      RenumberedAt(c, now, clock, i - 1, k);
      var before := Renumbered(c, now, clock, i - 1);
      var j :| 0 <= j < |before| && before[j] == e;
      assert Renumbered(c, now, clock, i)[j] == e;
    } else {
      assert Renumbered(c, now, clock, i)[|Renumbered(c, now, clock, i)| - 1] == e;
    }
  }

  /** By age, in a round without a clash: a command last sent at most 100 ms before the round
      keeps its id and its time; one sent longer ago was sent again in its turn. */
  lemma {:induction false} TickByAge<H>(c: Chan<H>, now: real, clock: nat -> real, k: nat)
    requires WellFormed(c) && NoClash(c, now) && k < |c.unacked|
    ensures var e, t := c.unacked[k], Tick(c, now, clock).unacked;
            && (now - e.sentTs <= 100.0 ==> e in t)
            && (now - e.sentTs > 100.0 ==> exists id :: Pending(id, clock(k), e.data) in t)
  {
    var u, e := c.unacked, c.unacked[k];
    TickClosedForm(c, now, clock);
    if now - e.sentTs <= 100.0 {
      UnagedIsSub(u, now);
    } else {
      RenumberedAt(c, now, clock, |u|, k);
      assert Pending(NewId(c, now, k), clock(k), e.data) in Tick(c, now, clock).unacked;
    }
  }

  lemma {:induction false} StepKeepsWellFormed<H>(c: Chan<H>, s: Step<H>)
    requires WellFormed(c) && SendFits(c, s)
    ensures WellFormed(Next(c, s))
  {
    match s
    case BuildStep =>
    case SendStep(d, id, ts) =>
      PutKeeps(c.unacked, Pending(id, ts, d));
    case AckStep(id) =>
      PopKeeps(c.unacked, id);
    case TickStep(now, clock) =>
      TickKeepsWellFormed(c, now, clock);
  }

  /** What one step does to one command. */
  lemma {:induction false} StepHolds<H>(c: Chan<H>, s: Step<H>, data: H)
    requires WellFormed(c) && StepOk(c, s)
    ensures Waits(Next(c, s), data) <==>
      (s.SendStep? && s.data == data) || (Waits(c, data) && !(s.AckStep? && WaitsUnder(c, data, s.id)))
  {
    match s
    case BuildStep =>
    case SendStep(d, id, ts) =>
      PutKeeps(c.unacked, Pending(id, ts, d));
    case AckStep(id) =>
      PopKeeps(c.unacked, id);
    case TickStep(now, clock) =>
      TickHolds(c, now, clock, data);
  }

  predicate NeverSent<H(==)>(steps: seq<Step<H>>, data: H) {
    forall i :: 0 <= i < |steps| && steps[i].SendStep? ==> steps[i].data != data
  }

  /** A command that does not wait stays away until it is sent again. */
  lemma {:induction false} GoneStaysGone<H>(c: Chan<H>, steps: seq<Step<H>>, data: H)
    requires WellFormed(c) && RunOk(c, steps) && NeverSent(steps, data) && !Waits(c, data)
    ensures !Waits(RunSteps(c, steps), data)
    decreases |steps|
  {
    if steps != [] {
      StepHolds(c, steps[0], data);
      StepKeepsWellFormed(c, steps[0]);
      GoneStaysGone(Next(c, steps[0]), steps[1..], data);
    }
  }

  /** Main result.  Over every interleaving of builds, sends, acks and resend rounds in
      which no id is shared, a command that waits keeps waiting, under exactly one entry,
      until an ack arrives for the id it has at that moment: stale acks and the acks of
      other commands never remove it, and nothing else does. */
  lemma {:induction false} HeldUntilAcked<H>(c: Chan<H>, steps: seq<Step<H>>, data: H)
    requires WellFormed(c) && RunOk(c, steps) && NeverSent(steps, data) && Waits(c, data)
    ensures WellFormed(RunSteps(c, steps))
    ensures Waits(RunSteps(c, steps), data) <==> !AckedUnderLatestId(c, steps, data)
    decreases |steps|
  {
    if steps != [] {
      var s, rest := steps[0], steps[1..];
      StepHolds(c, s, data);
      StepKeepsWellFormed(c, s);
      OkRunFits(Next(c, s), rest);
      RunKeepsWellFormed(Next(c, s), rest);
      if s.AckStep? && WaitsUnder(c, data, s.id) {
        GoneStaysGone(Next(c, s), rest, data);
      } else {
        HeldUntilAcked(Next(c, s), rest, data);
      }
    }
  }

  /** Over every run, clashing ids or not, a command waits under at most one entry and a
      key belongs to at most one command. */
  lemma {:induction false} RunKeepsWellFormed<H>(c: Chan<H>, steps: seq<Step<H>>)
    requires WellFormed(c) && SendsFit(c, steps)
    ensures WellFormed(RunSteps(c, steps))
    decreases |steps|
  {
    if steps != [] {
      StepKeepsWellFormed(c, steps[0]);
      RunKeepsWellFormed(Next(c, steps[0]), steps[1..]);
    }
  }

  lemma {:induction false} OkRunFits<H>(c: Chan<H>, steps: seq<Step<H>>)
    requires RunOk(c, steps)
    ensures SendsFit(c, steps)
    decreases |steps|
  {
    if steps != [] {
      OkRunFits(Next(c, steps[0]), steps[1..]);
    }
  }

  // -- time ------------------------------------------------------------------------

  predicate SentSince<H>(c: Chan<H>, since: real) {
    forall i :: 0 <= i < |c.unacked| ==> since <= c.unacked[i].sentTs
  }

  /** The start of the last resend round of the run, or `start` if there was none. */
  ghost function LastRound<H>(steps: seq<Step<H>>, start: real): real
    decreases |steps|
  {
    if steps == [] then start
    else LastRound(steps[1..], if steps[0].TickStep? then steps[0].now else start)
  }

  /** From `start` on the clock does not go back, and every resend round begins at most
      `period` after the one before. */
  ghost predicate RoundsApart<H>(steps: seq<Step<H>>, start: real, period: real)
    decreases |steps|
  {
    steps != [] ==>
      match steps[0]
      case SendStep(_, _, ts) => start <= ts && RoundsApart(steps[1..], start, period)
      case TickStep(now, clock) =>
        start <= now <= start + period && (forall k :: now <= clock(k)) && RoundsApart(steps[1..], now, period)
      case _ => RoundsApart(steps[1..], start, period)
  }

  /** One step: nothing that waits was last sent more than 100 ms before the last round. */
  lemma {:induction false} StepKeepsSentSince<H>(c: Chan<H>, s: Step<H>, start: real)
    requires WellFormed(c) && SendFits(c, s) && SentSince(c, start - RESEND_AFTER_MS)
    requires s.SendStep? ==> start <= s.ts
    requires s.TickStep? ==> forall k :: s.now <= s.clock(k)
    ensures SentSince(Next(c, s), (if s.TickStep? then s.now else start) - RESEND_AFTER_MS)
  {
    match s
    case BuildStep =>
    case SendStep(data, id, ts) => PutKeeps(c.unacked, Pending(id, ts, data));
    case AckStep(id) => PopKeeps(c.unacked, id);
    case TickStep(now, clock) => TickKeepsWellFormed(c, now, clock);
  }

  /** Main result on time, over every run, clashing ids or not: with rounds at most `period`
      apart, at no time `t` before the next round is due has a command that waits been last
      sent more than `period + 100` ms ago. */
  lemma {:induction false} WaitIsBounded<H>(c: Chan<H>, steps: seq<Step<H>>, n: nat, start: real, period: real, t: real)
    requires WellFormed(c) && SendsFit(c, steps) && SentSince(c, start - RESEND_AFTER_MS)
    requires RoundsApart(steps, start, period) && n <= |steps|
    requires t <= LastRound(steps[..n], start) + period
    ensures SentSince(RunSteps(c, steps[..n]), t - (period + RESEND_AFTER_MS))
    decreases n
  {
    if n == 0 {
      assert steps[..n] == [];
    } else {
      var s := steps[0];
      StepKeepsWellFormed(c, s);
      StepKeepsSentSince(c, s, start);
      assert steps[..n][1..] == steps[1..][..n - 1] && steps[..n][0] == s;
      assert RunSteps(c, steps[..n]) == RunSteps(Next(c, s), steps[1..][..n - 1]);
      WaitIsBounded(Next(c, s), steps[1..], n - 1, if s.TickStep? then s.now else start, period, t);
    }
  }
}
