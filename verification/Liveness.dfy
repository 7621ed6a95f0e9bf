/** The session timer of cam_reverse/session.py:127-155 over whole runs: what keeps a
    session connected. */
module Liveness {

  /** What the timer looks at. */
  datatype Live = Live(connected: bool, started: bool, lastReceived: real)

  /** A new session: connected, but not started before its transport exists. */
  const NEW: Live := Live(true, false, 0.0)

  /** The transport comes into being, a datagram is received (a keepalive or not, handled
      without error or not, one that closes the session or not), or the session timer ticks. */
  datatype Happening =
    | Started
    | Received(alive: bool, ok: bool, closes: bool, time: real)
    | SessionTick(now: real)

  function Next(l: Live, h: Happening, timeoutMs: real): Live {
    match h
    case Started => l.(started := true)
    case Received(alive, ok, closes, time) =>
      Live(l.connected && !closes, l.started, if ok && !alive then time else l.lastReceived)
    case SessionTick(now) =>
      if l.started && now - l.lastReceived > timeoutMs then l.(connected := false) else l
  }

  function Run(l: Live, hs: seq<Happening>, timeoutMs: real): Live {
    if hs == [] then l else Next(Run(l, hs[..|hs| - 1], timeoutMs), hs[|hs| - 1], timeoutMs)
  }

  /** The run contains a datagram, not a keepalive, handled without error at time `t`. */
  predicate HeardAt(hs: seq<Happening>, t: real) {
    exists i :: 0 <= i < |hs| && hs[i].Received? && hs[i].ok && !hs[i].alive && hs[i].time == t
  }

  lemma {:induction false} LastReceivedWasHeard(l: Live, hs: seq<Happening>, timeoutMs: real)
    ensures var r := Run(l, hs, timeoutMs).lastReceived;
            r == l.lastReceived || HeardAt(hs, r)
  {
    if hs != [] {
      var n := |hs| - 1;
      LastReceivedWasHeard(l, hs[..n], timeoutMs);
      assert forall i :: 0 <= i < n ==> hs[i] == hs[..n][i];
    }
  }

  lemma {:induction false} StaysStarted(l: Live, hs: seq<Happening>, timeoutMs: real)
    ensures Run(l, hs, timeoutMs).started <==> l.started || Started in hs
  {
    if hs != [] {
      var n := |hs| - 1;
      StaysStarted(l, hs[..n], timeoutMs);
      assert hs == hs[..n] + [hs[n]];
    }
  }

  /** A session that survives a tick after its start has, within its timeout, handled
      without error a datagram other than a keepalive.  (The clock counts from the epoch,
      so the initial `last_received_packet` of 0 is long past.) */
  lemma {:induction false} StillConnectedMeansHeard(hs: seq<Happening>, now: real, timeoutMs: real)
    requires now > timeoutMs && Started in hs
    requires Run(NEW, hs + [SessionTick(now)], timeoutMs).connected
    ensures exists t :: now - timeoutMs <= t && HeardAt(hs, t)
  {
    var all := hs + [SessionTick(now)];
    assert all[..|all| - 1] == hs;
    StaysStarted(NEW, hs, timeoutMs);
    LastReceivedWasHeard(NEW, hs, timeoutMs);
    var t := Run(NEW, hs, timeoutMs).lastReceived;
    assert now - timeoutMs <= t;
  }

  /** Nothing but the start, ticks, keepalives and datagrams whose handling raised. */
  predicate OnlyKeepalives(hs: seq<Happening>) {
    forall i :: 0 <= i < |hs| ==> (hs[i].Received? ==> hs[i].alive || !hs[i].ok)
  }

  /** Keepalives never extend a session: if nothing else is handled, the first tick more
      than the timeout later disconnects it, and it stays so. */
  lemma {:induction false} KeepalivesDoNotExtend(l: Live, hs: seq<Happening>, timeoutMs: real, i: nat)
    requires l.started && OnlyKeepalives(hs) && i < |hs|
    requires hs[i].SessionTick? && hs[i].now - l.lastReceived > timeoutMs
    ensures !Run(l, hs, timeoutMs).connected
  {
    var n := |hs| - 1;
    if i < n {
      KeepalivesDoNotExtend(l, hs[..n], timeoutMs, i);
    } else {
      KeepalivesKeepTime(l, hs[..n], timeoutMs);
    }
  }

  lemma {:induction false} KeepalivesKeepTime(l: Live, hs: seq<Happening>, timeoutMs: real)
    requires OnlyKeepalives(hs)
    ensures var r := Run(l, hs, timeoutMs); r.lastReceived == l.lastReceived && (l.started ==> r.started)
  {
    if hs != [] {
      KeepalivesKeepTime(l, hs[..|hs| - 1], timeoutMs);
    }
  }

  // -- exactly when a session is connected -------------------------------------------------

  /** A datagram, not a keepalive, handled without error. */
  predicate IsHeard(h: Happening) {
    h.Received? && h.ok && !h.alive
  }

  /** Happening `i` is the last before `n` in which the camera was heard. */
  predicate IsLastHeard(hs: seq<Happening>, n: nat, i: nat)
    requires n <= |hs|
  {
    i < n && IsHeard(hs[i]) && forall j :: i < j < n ==> !IsHeard(hs[j])
  }

  /** `t` is the time of the last datagram heard before happening `n`, or 0 without one. */
  ghost predicate LastHeardAt(hs: seq<Happening>, n: nat, t: real)
    requires n <= |hs|
  {
    || (exists i :: 0 <= i < n && IsLastHeard(hs, n, i) && hs[i].time == t)
    || (t == 0.0 && forall j :: 0 <= j < n ==> !IsHeard(hs[j]))
  }

  lemma {:induction false} LastHeardPrefix(hs: seq<Happening>, n: nat, m: nat, t: real)
    requires n <= m <= |hs|
    ensures LastHeardAt(hs[..m], n, t) <==> LastHeardAt(hs, n, t)
  {
    forall i | 0 <= i < n
      ensures IsLastHeard(hs[..m], n, i) <==> IsLastHeard(hs, n, i)
    {
    }
  }

  lemma {:induction false} LastHeardStep(hs: seq<Happening>, t: real)
    requires hs != []
    ensures var n := |hs| - 1;
            LastHeardAt(hs, n + 1, t) <==> if IsHeard(hs[n]) then t == hs[n].time else LastHeardAt(hs, n, t)
  {
    var n := |hs| - 1;
    forall i | 0 <= i < n
      ensures IsLastHeard(hs, n + 1, i) <==> IsLastHeard(hs, n, i) && !IsHeard(hs[n])
    {
    }
    if IsHeard(hs[n]) {
      assert IsLastHeard(hs, n + 1, n);
    }
  }

  /** `last_received_packet` is the time of the last datagram heard. */
  lemma {:induction false} LastReceivedIsLastHeard(hs: seq<Happening>, timeoutMs: real, t: real)
    ensures LastHeardAt(hs, |hs|, t) <==> t == Run(NEW, hs, timeoutMs).lastReceived
  {
    if hs != [] {
      var n := |hs| - 1;
      LastReceivedIsLastHeard(hs[..n], timeoutMs, t);
      LastHeardPrefix(hs, n, n, t);
      LastHeardStep(hs, t);
    }
  }

  /** Happening `k` is a tick, after the start, more than the timeout after the camera was
      last heard. */
  ghost predicate TimesOut(hs: seq<Happening>, k: nat, timeoutMs: real)
    requires k < |hs|
  {
    && hs[k].SessionTick? && Started in hs[..k]
    && exists t :: LastHeardAt(hs, k, t) && hs[k].now - t > timeoutMs
  }

  /** Happening `k` ends the session. */
  ghost predicate EndsAt(hs: seq<Happening>, k: nat, timeoutMs: real)
    requires k < |hs|
  {
    (hs[k].Received? && hs[k].closes) || TimesOut(hs, k, timeoutMs)
  }

  /** Main result on liveness: a session is connected if and only if nothing closed it and
      every tick after its start came within its timeout of the last datagram, other than a
      keepalive, that was handled without error. */
  lemma {:induction false} ConnectedIff(hs: seq<Happening>, timeoutMs: real)
    ensures Run(NEW, hs, timeoutMs).connected <==> forall k :: 0 <= k < |hs| ==> !EndsAt(hs, k, timeoutMs)
  {
    if hs != [] {
      var n := |hs| - 1;
      ConnectedIff(hs[..n], timeoutMs);
      forall k | 0 <= k < n
        ensures EndsAt(hs[..n], k, timeoutMs) <==> EndsAt(hs, k, timeoutMs)
      {
        EndsAtPrefix(hs, k, n, timeoutMs);
      }
      EndsNow(hs, timeoutMs);
    }
  }

  lemma {:induction false} EndsAtPrefix(hs: seq<Happening>, k: nat, n: nat, timeoutMs: real)
    requires k < n <= |hs|
    ensures EndsAt(hs[..n], k, timeoutMs) <==> EndsAt(hs, k, timeoutMs)
  {
    assert hs[..n][..k] == hs[..k];
    forall t: real
      ensures LastHeardAt(hs[..n], k, t) <==> LastHeardAt(hs, k, t)
    {
      LastHeardPrefix(hs, k, n, t);
    }
  }

  lemma {:induction false} EndsNow(hs: seq<Happening>, timeoutMs: real)
    requires hs != []
    ensures var n := |hs| - 1;
            Run(NEW, hs, timeoutMs).connected
            == (Run(NEW, hs[..n], timeoutMs).connected && !EndsAt(hs, n, timeoutMs))
  {
    var n := |hs| - 1;
    var l := Run(NEW, hs[..n], timeoutMs);
    StaysStarted(NEW, hs[..n], timeoutMs);
    forall t: real
      ensures LastHeardAt(hs, n, t) <==> t == l.lastReceived
    {
      LastReceivedIsLastHeard(hs[..n], timeoutMs, t);
      LastHeardPrefix(hs, n, n, t);
    }
    assert LastHeardAt(hs, n, l.lastReceived);
  }
}
