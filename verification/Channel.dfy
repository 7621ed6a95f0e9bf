/** The reliable command channel of cam_reverse/session.py as a state machine: commands
    get an id when they are built, wait in an insertion-ordered dictionary from the time
    they are sent, leave it when their latest id is acknowledged, and get a new id when
    the resend timer finds them aged.  `H` is the identity of a command: in a session, the
    cursor over its buffer. */
module Channel {

  const RESEND_AFTER_MS := 100.0

  datatype Pending<H> = Pending(key: nat, sentTs: real, data: H)

  datatype Chan<H> = Chan(nextId: nat, unacked: seq<Pending<H>>)

  // -- the dictionary ------------------------------------------------------

  predicate HasKey<H>(u: seq<Pending<H>>, key: nat) {
    exists i :: 0 <= i < |u| && u[i].key == key
  }

  predicate UniqueKeys<H>(u: seq<Pending<H>>) {
    forall i, j :: 0 <= i < j < |u| ==> u[i].key != u[j].key
  }

  predicate DistinctData<H(==)>(u: seq<Pending<H>>) {
    forall i, j :: 0 <= i < j < |u| ==> u[i].data != u[j].data
  }

  /** `d.pop(key, None)` */
  function Pop<H>(u: seq<Pending<H>>, key: nat): seq<Pending<H>> {
    if u == [] then []
    else if u[0].key == key then u[1..]
    else [u[0]] + Pop(u[1..], key)
  }

  /** `d[e.key] = e`: an existing key keeps its place, a new one goes to the end. */
  function Put<H>(u: seq<Pending<H>>, e: Pending<H>): seq<Pending<H>> {
    if u == [] then [e]
    else if u[0].key == e.key then [e] + u[1..]
    else [u[0]] + Put(u[1..], e)
  }

  lemma {:induction false} PopMiddle<H>(a: seq<Pending<H>>, e: Pending<H>, b: seq<Pending<H>>)
    requires !HasKey(a, e.key)
    ensures Pop(a + [e] + b, e.key) == a + b
  {
    if a == [] {
      assert (a + [e] + b)[1..] == a + b;
    } else {
      assert forall i :: 0 <= i < |a| - 1 ==> a[1..][i] == a[i + 1];
      PopMiddle(a[1..], e, b);
      assert (a + [e] + b)[1..] == a[1..] + [e] + b;
      assert [a[0]] + (a[1..] + b) == a + b;
    }
  }

  lemma {:induction false} PopAbsent<H>(u: seq<Pending<H>>, key: nat)
    requires !HasKey(u, key)
    ensures Pop(u, key) == u
  {
    if u != [] {
      assert forall i :: 0 <= i < |u| - 1 ==> u[1..][i] == u[i + 1];
      PopAbsent(u[1..], key);
    }
  }

  lemma {:induction false} PutAbsent<H>(u: seq<Pending<H>>, e: Pending<H>)
    requires !HasKey(u, e.key)
    ensures Put(u, e) == u + [e]
  {
    if u != [] {
      assert forall i :: 0 <= i < |u| - 1 ==> u[1..][i] == u[i + 1];
      PutAbsent(u[1..], e);
      assert [u[0]] + (u[1..] + [e]) == u + [e];
    }
  }

  lemma {:induction false} PutAt<H>(u: seq<Pending<H>>, e: Pending<H>, i: nat)
    requires i < |u| && UniqueKeys(u) && u[i].key == e.key
    ensures Put(u, e) == u[i := e]
  {
    if i > 0 {
      assert u[1..][i - 1] == u[i];
      PutAt(u[1..], e, i - 1);
      assert [u[0]] + u[1..][i - 1 := e] == u[i := e];
    }
  }

  // -- the operations ------------------------------------------------------

  predicate Aged<H>(e: Pending<H>, now: real) {
    now - e.sentTs > RESEND_AFTER_MS
  }

  /** `make_data_read_write` hands out `nextId`; the packet carries its low 16 bits. */
  function Build<H>(c: Chan<H>): Chan<H> {
    c.(nextId := c.nextId + 1)
  }

  function Send<H>(c: Chan<H>, data: H, id: nat, ts: real): Chan<H> {
    c.(unacked := Put(c.unacked, Pending(id, ts, data)))
  }

  function Ack<H>(c: Chan<H>, id: nat): Chan<H> {
    c.(unacked := Pop(c.unacked, id))
  }

  /** Renumber one aged packet and send it again. */
  function Resend<H>(c: Chan<H>, e: Pending<H>, ts: real): Chan<H> {
    Chan(c.nextId + 1, Put(Pop(c.unacked, e.key), Pending(c.nextId % 0x1_0000, ts, e.data)))
  }

  /** The resend timer after the first `i` entries of its snapshot; `clock(k)` is the time
      read while sending entry `k`, which is not the `now` read at the start of the round. */
  ghost function TickUpTo<H>(c: Chan<H>, now: real, clock: nat -> real, i: nat): Chan<H>
    requires i <= |c.unacked|
  {
    if i == 0 then c
    else
      var before, e := TickUpTo(c, now, clock, i - 1), c.unacked[i - 1];
      if Aged(e, now) then Resend(before, e, clock(i - 1)) else before
  }

  ghost function Tick<H>(c: Chan<H>, now: real, clock: nat -> real): Chan<H> {
    TickUpTo(c, now, clock, |c.unacked|)
  }

  predicate WellFormed<H(==)>(c: Chan<H>) {
    && UniqueKeys(c.unacked) && DistinctData(c.unacked)
    && forall i :: 0 <= i < |c.unacked| ==> c.unacked[i].key < 0x1_0000
  }

  // -- one round, in closed form --------------------------------------------

  function Unaged<H>(u: seq<Pending<H>>, now: real): seq<Pending<H>> {
    if u == [] then []
    else
      var n := |u| - 1;
      if Aged(u[n], now) then Unaged(u[..n], now) else Unaged(u[..n], now) + [u[n]]
  }

  function AgedCount<H>(u: seq<Pending<H>>, now: real): (k: nat)
    ensures k <= |u|
  {
    if u == [] then 0
    else AgedCount(u[..|u| - 1], now) + if Aged(u[|u| - 1], now) then 1 else 0
  }

  /** The id that the round gives to entry `i`, if it is aged. */
  function NewId<H>(c: Chan<H>, now: real, i: nat): nat
    requires i < |c.unacked|
  {
    (c.nextId + AgedCount(c.unacked[..i], now)) % 0x1_0000
  }

  lemma {:induction false} NewIdValue<H>(c: Chan<H>, now: real, i: nat, v: nat)
    requires i < |c.unacked| && v == c.nextId + AgedCount(c.unacked[..i], now)
    ensures NewId(c, now, i) == v % 0x1_0000
  {
  }

  ghost function Renumbered<H>(c: Chan<H>, now: real, clock: nat -> real, i: nat): seq<Pending<H>>
    requires i <= |c.unacked|
  {
    if i == 0 then []
    else
      var before, e := Renumbered(c, now, clock, i - 1), c.unacked[i - 1];
      if Aged(e, now) then before + [Pending(NewId(c, now, i - 1), clock(i - 1), e.data)] else before
  }

  /** Entry `i` would be given the id of a command still waiting: an un-aged one, or an
      aged one whose turn has not come. */
  predicate ClashAt<H>(c: Chan<H>, now: real, i: nat)
    requires i < |c.unacked|
  {
    Aged(c.unacked[i], now) && HasKey(Unaged(c.unacked[..i], now) + c.unacked[i + 1..], NewId(c, now, i))
  }

  predicate NoClashBefore<H>(c: Chan<H>, now: real, n: nat)
    requires n <= |c.unacked|
  {
    forall i :: 0 <= i < n ==> !ClashAt(c, now, i)
  }

  predicate NoClash<H>(c: Chan<H>, now: real) {
    NoClashBefore(c, now, |c.unacked|)
  }

  /** What `Renumbered` holds: one entry for each aged one, with consecutive ids. */
  lemma {:induction false} RenumberedShape<H>(c: Chan<H>, now: real, clock: nat -> real, i: nat)
    requires i <= |c.unacked|
    ensures var r := Renumbered(c, now, clock, i);
            && |r| == AgedCount(c.unacked[..i], now)
            && forall k :: 0 <= k < |r| ==> r[k].key == (c.nextId + k) % 0x1_0000
  {
    if i > 0 {
      RenumberedShape(c, now, clock, i - 1);
      assert c.unacked[..i][..i - 1] == c.unacked[..i - 1];
    }
  }

  /** Unique 16-bit keys: there are at most 65536 of them. */
  lemma {:induction false} KeysAreFew<H>(u: seq<Pending<H>>, bound: nat)
    requires UniqueKeys(u)
    requires forall i :: 0 <= i < |u| ==> u[i].key < bound
    ensures |u| <= bound
    decreases bound
  {
    assert |u| > 0 ==> u[0].key < bound;
    if bound > 0 {
      if i :| 0 <= i < |u| && u[i].key == bound - 1 {
        KeysAreFew(u[..i] + u[i + 1..], bound - 1);
      } else {
        KeysAreFew(u, bound - 1);
      }
    }
  }

  lemma {:induction false} NewIdIsNew<H>(c: Chan<H>, now: real, clock: nat -> real, i: nat)
    requires WellFormed(c) && i < |c.unacked|
    ensures !HasKey(Renumbered(c, now, clock, i), NewId(c, now, i))
  {
    KeysAreFew(c.unacked, 0x1_0000);
    RenumberedShape(c, now, clock, i);
    var r, n := Renumbered(c, now, clock, i), AgedCount(c.unacked[..i], now);
    forall k | 0 <= k < |r|
      ensures r[k].key != NewId(c, now, i)
    {
      DistinctLowBits(c.nextId + k, n - k);
    }
  }

  lemma {:induction false} DistinctLowBits(v: nat, d: nat)
    requires 0 < d < 0x1_0000
    ensures v % 0x1_0000 != (v + d) % 0x1_0000
  {
  }

  /** As long as nothing clashes, the dictionary after `i` entries is: the un-aged ones
      of those untouched, the rest of the snapshot untouched, the aged ones renumbered. */
  ghost function Layout<H>(c: Chan<H>, now: real, clock: nat -> real, i: nat): seq<Pending<H>>
    requires i <= |c.unacked|
  {
    Unaged(c.unacked[..i], now) + c.unacked[i..] + Renumbered(c, now, clock, i)
  }

  lemma {:induction false} UnagedIsSub<H>(u: seq<Pending<H>>, now: real)
    ensures forall k :: 0 <= k < |Unaged(u, now)| ==> Unaged(u, now)[k] in u && !Aged(Unaged(u, now)[k], now)
    ensures forall k :: 0 <= k < |u| && !Aged(u[k], now) ==> u[k] in Unaged(u, now)
    ensures |Unaged(u, now)| == |u| - AgedCount(u, now)
  {
    if u != [] {
      UnagedIsSub(u[..|u| - 1], now);
    }
  }

  lemma {:induction false} NotAmongEarlier<H>(u: seq<Pending<H>>, now: real, i: nat)
    requires UniqueKeys(u) && i < |u|
    ensures !HasKey(Unaged(u[..i], now), u[i].key)
  {
    UnagedIsSub(u[..i], now);
    forall k | 0 <= k < |Unaged(u[..i], now)|
      ensures Unaged(u[..i], now)[k].key != u[i].key
    {
      var j :| 0 <= j < i && u[..i][j] == Unaged(u[..i], now)[k];
    }
  }

  lemma {:induction false} HasKeyConcat<H>(u: seq<Pending<H>>, v: seq<Pending<H>>, key: nat)
    ensures HasKey(u + v, key) <==> HasKey(u, key) || HasKey(v, key)
  {
    assert forall k :: 0 <= k < |v| ==> (u + v)[|u| + k] == v[k];
    assert forall k :: 0 <= k < |u| ==> (u + v)[k] == u[k];
  }

  /** Resending entry `i`, laid out as above: where its new id lands. */
  lemma {:induction false} ResendStep<H>(c: Chan<H>, now: real, clock: nat -> real, i: nat)
    requires WellFormed(c) && i < |c.unacked| && Aged(c.unacked[i], now)
    requires TickUpTo(c, now, clock, i).unacked == Layout(c, now, clock, i)
    requires TickUpTo(c, now, clock, i).nextId == c.nextId + AgedCount(c.unacked[..i], now)
    ensures var rest := Unaged(c.unacked[..i], now) + c.unacked[i + 1..];
            var e := Pending(NewId(c, now, i), clock(i), c.unacked[i].data);
            && TickUpTo(c, now, clock, i + 1).unacked == Put(rest + Renumbered(c, now, clock, i), e)
            && HasKey(rest + Renumbered(c, now, clock, i), e.key) == ClashAt(c, now, i)
  {
    hide Put, Pop, Unaged, Renumbered, NewId;
    var u := c.unacked;
    var a, b, r := Unaged(u[..i], now), u[i + 1..], Renumbered(c, now, clock, i);
    NotAmongEarlier(u, now, i);
    NewIdValue(c, now, i, c.nextId + AgedCount(u[..i], now));
    assert Layout(c, now, clock, i) == a + [u[i]] + (b + r);
    PopMiddle(a, u[i], b + r);
    assert a + (b + r) == (a + b) + r;
    NewIdIsNew(c, now, clock, i);
    HasKeyConcat(a + b, r, NewId(c, now, i));
  }

  lemma {:induction false} TickLayout<H>(c: Chan<H>, now: real, clock: nat -> real, i: nat)
    requires WellFormed(c) && i <= |c.unacked| && NoClashBefore(c, now, i)
    ensures TickUpTo(c, now, clock, i).unacked == Layout(c, now, clock, i)
    ensures TickUpTo(c, now, clock, i).nextId == c.nextId + AgedCount(c.unacked[..i], now)
  {
    hide Layout;
    var u := c.unacked;
    if i == 0 {
      StartLayout(c, now, clock);
      assert u[..0] == [];
    } else {
      TickLayout(c, now, clock, i - 1);
      assert u[..i][..i - 1] == u[..i - 1] && u[..i][i - 1] == u[i - 1];
      if Aged(u[i - 1], now) {
        ResendLayout(c, now, clock, i - 1);
      } else {
        SkipLayout(c, now, clock, i - 1);
      }
    }
  }

  lemma {:induction false} StartLayout<H>(c: Chan<H>, now: real, clock: nat -> real)
    ensures Layout(c, now, clock, 0) == c.unacked
  {
    assert c.unacked[..0] == [] && c.unacked[0..] == c.unacked;
  }

  lemma {:induction false} SkipLayout<H>(c: Chan<H>, now: real, clock: nat -> real, i: nat)
    requires i < |c.unacked| && !Aged(c.unacked[i], now)
    ensures Layout(c, now, clock, i + 1) == Layout(c, now, clock, i)
  {
    var u := c.unacked;
    assert u[..i + 1][..i] == u[..i] && u[..i + 1][i] == u[i];
    assert u[i..] == [u[i]] + u[i + 1..];
  }

  lemma {:induction false} ResendLayout<H>(c: Chan<H>, now: real, clock: nat -> real, i: nat)
    requires WellFormed(c) && i < |c.unacked| && Aged(c.unacked[i], now) && !ClashAt(c, now, i)
    requires TickUpTo(c, now, clock, i).unacked == Layout(c, now, clock, i)
    requires TickUpTo(c, now, clock, i).nextId == c.nextId + AgedCount(c.unacked[..i], now)
    ensures TickUpTo(c, now, clock, i + 1).unacked == Layout(c, now, clock, i + 1)
  {
    var u := c.unacked;
    var a, b, r := Unaged(u[..i], now), u[i + 1..], Renumbered(c, now, clock, i);
    var e := Pending(NewId(c, now, i), clock(i), u[i].data);
    ResendStep(c, now, clock, i);
    PutAbsent(a + b + r, e);
    assert u[..i + 1][..i] == u[..i];
    assert Unaged(u[..i + 1], now) == a;
    assert Renumbered(c, now, clock, i + 1) == r + [e];
    assert a + b + r + [e] == a + b + (r + [e]);
  }

  /** A round without a clash, in closed form: the un-aged entries stay as they are, in
      order, followed by the aged ones in order under consecutive new ids. */
  lemma {:induction false} TickClosedForm<H>(c: Chan<H>, now: real, clock: nat -> real)
    requires WellFormed(c) && NoClash(c, now)
    ensures Tick(c, now, clock) == Chan(c.nextId + AgedCount(c.unacked, now),
                                        Unaged(c.unacked, now) + Renumbered(c, now, clock, |c.unacked|))
  {
    TickLayout(c, now, clock, |c.unacked|);
    assert c.unacked[..|c.unacked|] == c.unacked && c.unacked[|c.unacked|..] == [];
  }

  // -- a round preserves the number of commands exactly when nothing clashes ---

  lemma {:induction false} PutSize<H>(u: seq<Pending<H>>, e: Pending<H>)
    ensures |Put(u, e)| == |u| + if HasKey(u, e.key) then 0 else 1
    ensures forall key :: HasKey(Put(u, e), key) <==> HasKey(u, key) || key == e.key
  {
    if u != [] {
      var t := u[1..];
      assert forall i :: 0 <= i < |t| ==> t[i] == u[i + 1];
      PutSize(t, e);
      forall key
        ensures HasKey(u, key) <==> u[0].key == key || HasKey(t, key)
      {
        if i :| 0 <= i < |u| && u[i].key == key { assert i > 0 ==> t[i - 1].key == key; }
      }
      var p := Put(u, e);
      forall key
        ensures HasKey(p, key) <==> HasKey(u, key) || key == e.key
      {
        HasKeyCons(p, key);
      }
    } else {
      assert [e][0].key == e.key;
    }
  }

  lemma {:induction false} HasKeyCons<H>(u: seq<Pending<H>>, key: nat)
    requires u != []
    ensures HasKey(u, key) <==> u[0].key == key || HasKey(u[1..], key)
  {
    if i :| 0 <= i < |u| && u[i].key == key {
      assert i > 0 ==> u[1..][i - 1].key == key;
    }
    if i :| 0 <= i < |u| - 1 && u[1..][i].key == key {
      assert u[i + 1].key == key;
    }
  }

  lemma {:induction false} PopSize<H>(u: seq<Pending<H>>, key: nat)
    ensures |Pop(u, key)| == |u| - if HasKey(u, key) then 1 else 0
    ensures forall k :: k != key ==> (HasKey(Pop(u, key), k) <==> HasKey(u, k))
  {
    if u != [] {
      PopSize(u[1..], key);
      HasKeyCons(u, key);
      forall k | k != key
        ensures HasKey(Pop(u, key), k) <==> HasKey(u, k)
      {
        HasKeyCons(u, k);
        if u[0].key != key { HasKeyCons(Pop(u, key), k); }
      }
    }
  }

  /** From entry `i` on, the number of commands does not grow, and the entries whose turn
      has not come keep their keys. */
  lemma {:induction false} TickShrinks<H>(c: Chan<H>, now: real, clock: nat -> real, i: nat, j: nat)
    requires WellFormed(c) && i <= j <= |c.unacked|
    requires forall k :: i <= k < |c.unacked| ==> HasKey(TickUpTo(c, now, clock, i).unacked, c.unacked[k].key)
    ensures |TickUpTo(c, now, clock, j).unacked| <= |TickUpTo(c, now, clock, i).unacked|
    ensures forall k :: j <= k < |c.unacked| ==> HasKey(TickUpTo(c, now, clock, j).unacked, c.unacked[k].key)
  {
    if i < j {
      TickShrinks(c, now, clock, i, j - 1);
      var before, e := TickUpTo(c, now, clock, j - 1), c.unacked[j - 1];
      PopSize(before.unacked, e.key);
      PutSize(Pop(before.unacked, e.key), Pending(before.nextId % 0x1_0000, clock(j - 1), e.data));
    }
  }

  lemma {:induction false} LayoutKeys<H>(c: Chan<H>, now: real, clock: nat -> real, i: nat)
    requires i <= |c.unacked|
    ensures |Layout(c, now, clock, i)| == |c.unacked|
    ensures forall k :: i <= k < |c.unacked| ==> HasKey(Layout(c, now, clock, i), c.unacked[k].key)
  {
    RenumberedShape(c, now, clock, i);
    UnagedIsSub(c.unacked[..i], now);
    forall k | i <= k < |c.unacked|
      ensures HasKey(Layout(c, now, clock, i), c.unacked[k].key)
    {
      assert Layout(c, now, clock, i)[|Unaged(c.unacked[..i], now)| + (k - i)] == c.unacked[k];
    }
  }

  /** What is left when entry `i` has been taken out to be renumbered. */
  ghost function Rest<H>(c: Chan<H>, now: real, clock: nat -> real, i: nat): (r: seq<Pending<H>>)
    requires i < |c.unacked| && Aged(c.unacked[i], now)
    ensures |r| == |c.unacked| - 1
    ensures forall k :: i < k < |c.unacked| ==> HasKey(r, c.unacked[k].key)
  {
    RenumberedShape(c, now, clock, i);
    UnagedIsSub(c.unacked[..i], now);
    var a := Unaged(c.unacked[..i], now);
    var r := a + c.unacked[i + 1..] + Renumbered(c, now, clock, i);
    assert forall k :: i < k < |c.unacked| ==> r[|a| + (k - i - 1)] == c.unacked[k];
    r
  }

  /** The first clash loses a command. */
  lemma {:induction false} ClashLoses<H>(c: Chan<H>, now: real, clock: nat -> real, i: nat)
    requires WellFormed(c) && i < |c.unacked| && NoClashBefore(c, now, i) && ClashAt(c, now, i)
    ensures |Tick(c, now, clock).unacked| < |c.unacked|
  {
    TickLayout(c, now, clock, i);
    ResendStep(c, now, clock, i);
    PutSize(Rest(c, now, clock, i), Pending(NewId(c, now, i), clock(i), c.unacked[i].data));
    TickShrinks(c, now, clock, i + 1, |c.unacked|);
  }

  lemma {:induction false} FirstClash<H>(c: Chan<H>, now: real, n: nat) returns (i: nat)
    requires n <= |c.unacked| && !NoClashBefore(c, now, n)
    ensures i < n && NoClashBefore(c, now, i) && ClashAt(c, now, i)
  {
    if NoClashBefore(c, now, n - 1) {
      i := n - 1;
    } else {
      i := FirstClash(c, now, n - 1);
    }
  }

  /** Main result for one round: every command survives it if and only if no id handed
      out in it is the id of a command still waiting. */
  lemma {:induction false} TickKeepsAllIff<H>(c: Chan<H>, now: real, clock: nat -> real)
    requires WellFormed(c)
    ensures |Tick(c, now, clock).unacked| == |c.unacked| <==> NoClash(c, now)
    ensures |Tick(c, now, clock).unacked| <= |c.unacked|
  {
    if NoClash(c, now) {
      TickLayout(c, now, clock, |c.unacked|);
      LayoutKeys(c, now, clock, |c.unacked|);
    } else {
      var i := FirstClash(c, now, |c.unacked|);
      ClashLoses(c, now, clock, i);
    }
  }

  /** Sending a command under an id keeps all that wait if and only if none of them is
      waiting under that id. */
  lemma {:induction false} SendKeepsAllIff<H>(c: Chan<H>, data: H, id: nat, ts: real)
    ensures |Send(c, data, id, ts).unacked| == |c.unacked| + 1 <==> !HasKey(c.unacked, id)
    ensures HasKey(c.unacked, id) ==> |Send(c, data, id, ts).unacked| == |c.unacked|
  {
    PutSize(c.unacked, Pending(id, ts, data));
  }
}
