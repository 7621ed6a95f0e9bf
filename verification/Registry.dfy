/** The session registry of cam_reverse/http_server.py: discoveries, disconnections and
    reconnections as steps on a map from device ids to sessions.  `S` is the identity of a
    session.  `emit` runs a snapshot of the listeners, once each, in the order in which they
    were registered (cam_reverse/event_emitter.py:27-31). */
module Registry {
  import opened Bytes
  import opened Sessions

  datatype Info = Info(devName: string, connected: bool, listeners: seq<Listener>)

  /** The sessions stored by device id, and every session there ever was. */
  datatype Reg<!S(==)> = Reg(sessions: map<string, S>, info: map<S, Info>)

  /** What one listener does when session `s` emits "disconnect". */
  function Invoke<S(==)>(r: Reg<S>, s: S, l: Listener): Reg<S>
    requires s in r.info
  {
    match l
    case OwnDisconnect => r.(info := r.info[s := r.info[s].(connected := false)])
    case DropDevice(devId) => r.(sessions := r.sessions - {devId})
  }

  function InvokeAll<S(==)>(r: Reg<S>, s: S, ls: seq<Listener>): (r': Reg<S>)
    requires s in r.info
    ensures s in r'.info
  {
    if ls == [] then r else Invoke(InvokeAll(r, s, ls[..|ls| - 1]), s, ls[|ls| - 1])
  }

  /** What the listeners do all together. */
  lemma {:induction false} InvokeAllClosed<S>(r: Reg<S>, s: S, ls: seq<Listener>)
    requires s in r.info
    ensures var connected := r.info[s].connected && OwnDisconnect !in ls;
            InvokeAll(r, s, ls)
            == Reg(r.sessions - Dropped(ls), r.info[s := r.info[s].(connected := connected)])
  {
    if ls == [] {
      assert r.info[s := r.info[s]] == r.info;
    } else {
      var n := |ls| - 1;
      InvokeAllClosed(r, s, ls[..n]);
      assert ls == ls[..n] + [ls[n]];
      var before := InvokeAll(r, s, ls[..n]);
      match ls[n]
      case OwnDisconnect =>
        assert r.info[s := before.info[s]][s := before.info[s].(connected := false)]
               == r.info[s := before.info[s].(connected := false)];
      case DropDevice(devId) =>
        assert r.sessions - Dropped(ls[..n]) - {devId} == r.sessions - (Dropped(ls[..n]) + {devId});
    }
  }

  /** `emit("disconnect")`: a Close, a timeout, or a reconnection from the web page. */
  function Disconnect<S(==)>(r: Reg<S>, s: S): Reg<S> {
    if s in r.info then InvokeAll(r, s, r.info[s].listeners) else r
  }

  /** `_on_discover`, `s` being the new session.  The session is stored first; a camera
      entry in the configuration that is not a map then raises, before the server's own
      "disconnect" listener is registered. */
  function Discover<S(==)>(r: Reg<S>, devId: string, s: S, entryIsMap: bool): Reg<S> {
    if devId in r.sessions || s in r.info then r
    else
      var listeners := if entryIsMap then [OwnDisconnect, DropDevice(devId)] else [OwnDisconnect];
      Reg(r.sessions[devId := s], r.info[s := Info(devId, true, listeners)])
  }

  /** The registry part of `_handle_camera_reconnect`. */
  function Reconnect<S(==)>(r: Reg<S>, devId: string): Reg<S> {
    if devId in r.sessions then Disconnect(r, r.sessions[devId]) else r
  }

  datatype Step<!S> =
    | DiscoverStep(devId: string, s: S, entryIsMap: bool)
    | DisconnectStep(s: S)
    | ReconnectStep(devId: string)

  function Next<S(==)>(r: Reg<S>, st: Step<S>): Reg<S> {
    match st
    case DiscoverStep(devId, s, entryIsMap) => Discover(r, devId, s, entryIsMap)
    case DisconnectStep(s) => Disconnect(r, s)
    case ReconnectStep(devId) => Reconnect(r, devId)
  }

  function Run<S(==)>(r: Reg<S>, steps: seq<Step<S>>): Reg<S> {
    if steps == [] then r else Next(Run(r, steps[..|steps| - 1]), steps[|steps| - 1])
  }

  function Empty<S(==)>(): Reg<S> {
    Reg(map[], map[])
  }

  predicate AllEntriesAreMaps<S>(steps: seq<Step<S>>) {
    forall i :: 0 <= i < |steps| && steps[i].DiscoverStep? ==> steps[i].entryIsMap
  }

  /** Every stored session is connected and stored under its own name: the handlers'
      "not s.connected" branches cannot be reached. */
  predicate StoredAreConnected<S(==)>(r: Reg<S>) {
    forall d :: d in r.sessions ==>
      r.sessions[d] in r.info && r.info[r.sessions[d]].connected && r.info[r.sessions[d]].devName == d
  }

  /** The server's own listener is there for every session. */
  ghost predicate AllListen<S>(r: Reg<S>) {
    forall s :: s in r.info ==> r.info[s].listeners == [OwnDisconnect, DropDevice(r.info[s].devName)]
  }

  /** A disconnection with both listeners, in closed form. */
  lemma {:induction false} DisconnectBoth<S>(r: Reg<S>, s: S)
    requires s in r.info && r.info[s].listeners == [OwnDisconnect, DropDevice(r.info[s].devName)]
    ensures Disconnect(r, s) == Reg(r.sessions - {r.info[s].devName}, r.info[s := r.info[s].(connected := false)])
  {
    var ls := r.info[s].listeners;
    assert ls[..1] == [OwnDisconnect] && ls[..1][..0] == [] && ls == [ls[0], ls[1]];
    assert InvokeAll(r, s, ls[..1]) == Invoke(r, s, OwnDisconnect) by {
      assert InvokeAll(r, s, ls[..1][..0]) == r;
    }
  }

  lemma {:induction false} StepKeeps<S>(r: Reg<S>, st: Step<S>)
    requires StoredAreConnected(r) && AllListen(r)
    requires st.DiscoverStep? ==> st.entryIsMap
    ensures StoredAreConnected(Next(r, st)) && AllListen(Next(r, st))
  {
    match st
    case DiscoverStep(devId, s, entryIsMap) =>
    case DisconnectStep(s) =>
      if s in r.info { DisconnectBoth(r, s); }
    case ReconnectStep(devId) =>
      if devId in r.sessions { DisconnectBoth(r, r.sessions[devId]); }
  }

  /** Main result: over every interleaving of discoveries, closes, timeouts (of sessions
      stored or long forgotten) and reconnections, the stored sessions are connected. */
  lemma {:induction false} RegistryInvariant<S>(steps: seq<Step<S>>)
    requires AllEntriesAreMaps(steps)
    ensures StoredAreConnected(Run(Empty(), steps)) && AllListen(Run(Empty(), steps))
  {
    if steps != [] {
      RegistryInvariant(steps[..|steps| - 1]);
      StepKeeps(Run(Empty(), steps[..|steps| - 1]), steps[|steps| - 1]);
    }
  }

  /** The condition on the configuration is needed: after a discovery in a sound registry,
      every disconnection leaves it sound if and only if the camera's entry is a map. */
  lemma {:induction false} EntryMustBeMapIff<S>(r: Reg<S>, devId: string, s: S, entryIsMap: bool)
    requires StoredAreConnected(r) && AllListen(r) && devId !in r.sessions && s !in r.info
    ensures StoredAreConnected(Disconnect(Discover(r, devId, s, entryIsMap), s)) <==> entryIsMap
  {
    var r' := Discover(r, devId, s, entryIsMap);
    if entryIsMap {
      StepKeeps(r, DiscoverStep(devId, s, entryIsMap));
      StepKeeps(r', DisconnectStep(s));
    } else {
      var ls := [OwnDisconnect];
      assert ls[..0] == [] && InvokeAll(r', s, ls[..0]) == r';
      var dead := Disconnect(r', s);
      assert dead == Invoke(r', s, OwnDisconnect);
      assert devId in dead.sessions && !dead.info[dead.sessions[devId]].connected;
    }
  }

  /** Listeners connect nobody. */
  lemma {:induction false} ListenersConnectNobody<S>(r: Reg<S>, s: S, ls: seq<Listener>, t: S)
    requires s in r.info && t in r.info && !r.info[t].connected
    ensures var r' := InvokeAll(r, s, ls); t in r'.info && !r'.info[t].connected
  {
    if ls != [] {
      ListenersConnectNobody(r, s, ls[..|ls| - 1], t);
    }
  }

  /** Once a session is disconnected it stays so, over every run and whatever the
      configuration holds. */
  lemma {:induction false} DisconnectedForGood<S>(r: Reg<S>, steps: seq<Step<S>>, s: S)
    requires s in r.info && !r.info[s].connected
    ensures var r' := Run(r, steps); s in r'.info && !r'.info[s].connected
  {
    if steps != [] {
      var n := |steps| - 1;
      DisconnectedForGood(r, steps[..n], s);
      var before := Run(r, steps[..n]);
      var ending := match steps[n]
        case DiscoverStep(_, _, _) => None
        case DisconnectStep(t) => Some(t)
        case ReconnectStep(devId) => if devId in before.sessions then Some(before.sessions[devId]) else None;
      if ending.Some? && ending.value in before.info {
        ListenersConnectNobody(before, ending.value, before.info[ending.value].listeners, s);
      }
    }
  }

  // -- the converse ------------------------------------------------------------------

  /** Every connected session is stored. */
  ghost predicate ConnectedAreStored<S>(r: Reg<S>) {
    forall s :: s in r.info && r.info[s].connected ==>
      r.info[s].devName in r.sessions && r.sessions[r.info[s].devName] == s
  }

  /** A disconnection keeps every live session reachable if and only if it does not come
      from a session that is dead already while a new one holds its device. */
  lemma {:induction false} DisconnectKeepsLiveStoredIff<S>(r: Reg<S>, s: S)
    requires StoredAreConnected(r) && AllListen(r) && ConnectedAreStored(r) && s in r.info
    ensures ConnectedAreStored(Disconnect(r, s)) <==> r.info[s].connected || r.info[s].devName !in r.sessions
  {
    DisconnectBoth(r, s);
    var d, r' := r.info[s].devName, Disconnect(r, s);
    if !r.info[s].connected && d in r.sessions {
      var live := r.sessions[d];
      assert live != s && r'.info[live].connected && d !in r'.sessions;
    }
  }

  /** That case is reached: a camera is found, lost and found again, and then its first
      session ends once more.  The new session is alive and no longer stored. */
  lemma {:induction false} DeadSessionDropsLiveDevice<S>(devId: string, s: S, live: S)
    requires s != live
    ensures var before := [DiscoverStep(devId, s, true), DisconnectStep(s), DiscoverStep(devId, live, true)];
            var r, r' := Run(Empty(), before), Run(Empty(), before + [DisconnectStep(s)]);
            && ConnectedAreStored(r) && devId in r.sessions && r.sessions[devId] == live
            && s in r.info && !r.info[s].connected
            && live in r'.info && r'.info[live].connected && devId !in r'.sessions && !ConnectedAreStored(r')
  {
    var first, second, third := DiscoverStep(devId, s, true), DisconnectStep(s), DiscoverStep(devId, live, true);
    var r0: Reg<S> := Empty();
    assert AllListen(r0) && StoredAreConnected(r0);
    RunSnoc([], first);
    RunSnoc([] + [first], second);
    RunSnoc([] + [first] + [second], third);
    RunSnoc([] + [first] + [second] + [third], second);
    assert [first, second, third] == [] + [first] + [second] + [third];
    var r1 := Next(r0, first);
    DisconnectBoth(r1, s);
    var r3 := Next(Next(r1, second), third);
    DisconnectBoth(r3, s);
  }

  lemma {:induction false} RunSnoc<S>(steps: seq<Step<S>>, st: Step<S>)
    ensures Run(Empty(), steps + [st]) == Next(Run(Empty(), steps), st)
  {
    assert (steps + [st])[..|steps|] == steps;
  }

  // -- how long a session stays stored ---------------------------------------------------

  /** The step disconnects a session of that device: the stored one, or one long dead. */
  predicate Drops<S(==)>(r: Reg<S>, st: Step<S>, devId: string) {
    match st
    case DiscoverStep(_, _, _) => false
    case DisconnectStep(s) => s in r.info && r.info[s].devName == devId
    case ReconnectStep(d) => d == devId
  }

  predicate IsStored<S(==)>(r: Reg<S>, devId: string, s: S) {
    devId in r.sessions && r.sessions[devId] == s
  }

  lemma {:induction false} StepKeepsStored<S>(r: Reg<S>, st: Step<S>, devId: string, s: S)
    requires StoredAreConnected(r) && AllListen(r) && s in r.info && (st.DiscoverStep? ==> st.entryIsMap)
    ensures s in Next(r, st).info
    ensures IsStored(Next(r, st), devId, s) <==> IsStored(r, devId, s) && !Drops(r, st, devId)
  {
    match st
    case DiscoverStep(_, _, _) =>
    case DisconnectStep(t) =>
      if t in r.info { DisconnectBoth(r, t); }
    case ReconnectStep(d) =>
      if d in r.sessions { DisconnectBoth(r, r.sessions[d]); }
  }

  /** No step from the `from`-th on does. */
  predicate NoneDrops<S(==)>(steps: seq<Step<S>>, from: nat, devId: string) {
    forall k :: from <= k < |steps| ==> !Drops(Run(Empty(), steps[..k]), steps[k], devId)
  }

  lemma {:induction false} NoneYet<S>(steps: seq<Step<S>>, devId: string)
    ensures NoneDrops(steps, |steps|, devId)
  {
  }

  lemma {:induction false} NoneDropsMore<S>(steps: seq<Step<S>>, from: nat, devId: string)
    requires from < |steps|
    ensures var n := |steps| - 1;
            NoneDrops(steps, from, devId) <==>
              NoneDrops(steps[..n], from, devId) && !Drops(Run(Empty(), steps[..n]), steps[n], devId)
  {
    var n := |steps| - 1;
    hide Drops;
    assert forall k :: from <= k < n ==> steps[..n][..k] == steps[..k] && steps[..n][k] == steps[k];
  }

  /** Main result: a session found at step `i`, when its device was not stored, is stored at
      the end if and only if no later step disconnects a session of that device.  Being found
      again makes no difference to it. */
  lemma {:induction false} StoredUntilDropped<S>(steps: seq<Step<S>>, i: nat)
    requires AllEntriesAreMaps(steps) && i < |steps| && steps[i].DiscoverStep?
    requires var before := Run(Empty(), steps[..i]);
             steps[i].devId !in before.sessions && steps[i].s !in before.info
    ensures var r := Run(Empty(), steps);
            && steps[i].s in r.info
            && (IsStored(r, steps[i].devId, steps[i].s) <==>
                NoneDrops(steps, i + 1, steps[i].devId))
  {
    hide StoredAreConnected, AllListen, Drops, NoneDrops;
    var n := |steps| - 1;
    var before := steps[..n];
    RegistryInvariant(before);
    if i < n {
      assert before[..i] == steps[..i];
      StoredUntilDropped(before, i);
      NoneDropsMore(steps, i + 1, steps[i].devId);
      StepKeepsStored(Run(Empty(), before), steps[n], steps[i].devId, steps[i].s);
    } else {
      NoneYet(steps, steps[i].devId);
    }
  }

  // -- reconnection ------------------------------------------------------------------

  /** After a reconnection from the web page the device is not stored, its session is no
      longer connected, and every other session and stored device is as before. */
  lemma {:induction false} ReconnectDrops<S>(steps: seq<Step<S>>, devId: string)
    requires AllEntriesAreMaps(steps)
    ensures var r, r' := Run(Empty(), steps), Run(Empty(), steps + [ReconnectStep(devId)]);
            && r'.sessions == r.sessions - {devId} && r'.info.Keys == r.info.Keys
            && (devId in r.sessions ==> r.sessions[devId] in r'.info && !r'.info[r.sessions[devId]].connected)
            && forall t :: t in r.info && !(devId in r.sessions && t == r.sessions[devId]) ==> r'.info[t] == r.info[t]
  {
    RunSnoc(steps, ReconnectStep(devId));
    RegistryInvariant(steps);
    var r := Run(Empty(), steps);
    if devId in r.sessions {
      DisconnectBoth(r, r.sessions[devId]);
    } else {
      assert r.sessions - {devId} == r.sessions;
    }
  }

  /** A camera that is found again after a reconnection gets a new session, which is stored
      and connected. */
  lemma {:induction false} ReconnectedIsFound<S>(steps: seq<Step<S>>, devId: string, s: S)
    requires AllEntriesAreMaps(steps) && s !in Run(Empty(), steps).info
    ensures var r := Run(Empty(), steps + [ReconnectStep(devId)] + [DiscoverStep(devId, s, true)]);
            && devId in r.sessions && r.sessions[devId] == s
            && s in r.info && r.info[s].connected && r.info[s].devName == devId
  {
    ReconnectDrops(steps, devId);
    RunSnoc(steps + [ReconnectStep(devId)], DiscoverStep(devId, s, true));
  }
}
