/** Whole runs of the server: discoveries, reconnections from the web page, and the events of
    all sessions ever made, in any order, on the objects themselves. */
module ServerRuns {
  import opened Bytes
  import opened Sessions
  import opened SessionEvents
  import opened SessionRuns
  import opened Registry
  import opened HttpServer

  /** `pick` counts the sessions in the order in which they were made. */
  datatype ServerEvent =
    | Discovery(ip: string, devId: string)
    | Reconnection(devId: string)
    | OfSession(pick: nat, e: Happens)

  predicate AllMaps(cameras: map<string, CameraEntry>) {
    forall d :: d in cameras ==> cameras[d].Entry?
  }

  /** The state of the server is that of the registry run `steps`. */
  ghost predicate Ran(server: Server, steps: seq<Step<Session>>, cameras: map<string, CameraEntry>)
    reads server, server.devices, server.known
  {
    && server.View() == Run(Empty(), steps)
    && (AllMaps(cameras) ==> AllMaps(server.cameras) && AllEntriesAreMaps(steps))
  }

  lemma {:induction false} RanMore(server: Server, before: Reg<Session>, steps: seq<Step<Session>>, st: Step<Session>,
                                   cameras: map<string, CameraEntry>)
    requires before == Run(Empty(), steps) && server.View() == Next(before, st)
    requires AllMaps(cameras) ==>
      AllMaps(server.cameras) && AllEntriesAreMaps(steps) && (st.DiscoverStep? ==> st.entryIsMap)
    ensures Ran(server, steps + [st], cameras)
  {
    RunSnoc(steps, st);
  }

  /** A camera is found; `s` is its new session. */
  method Discover(server: Server, ip: string, devId: string, ghost steps: seq<Step<Session>>,
                  ghost cameras: map<string, CameraEntry>)
    returns (s: Option<Session>, ghost more: seq<Step<Session>>)
    requires server.Valid() && Ran(server, steps, cameras)
    modifies server.devices`sessions, server`known, server`cameraIps, server`cameras
    ensures server.Buffers() == old(server.Buffers()) && old(server.known) <= server.known
    ensures fresh(server.known - old(server.known)) && server.Valid()
    ensures Ran(server, steps + more, cameras) && (s.Some? ==> s.value in server.known)
  {
    ghost var before := server.View();
    more := [];
    s := None;
    if devId in server.devices.sessions {
      var r := server.OnDiscover(ip, devId);
      assert steps + [] == steps;
    } else {
      ghost var entryIsMap := server.EntryIsMap(devId);
      var r := server.OnDiscover(ip, devId);
      s := Some(server.devices.sessions[devId]);
      more := [DiscoverStep(devId, s.value, entryIsMap)];
      RanMore(server, before, steps, more[0], cameras);
    }
  }

  /** A reconnection from the web page. */
  method Reconnect(server: Server, devId: string, ghost steps: seq<Step<Session>>,
                   ghost cameras: map<string, CameraEntry>)
    requires server.Valid() && Ran(server, steps, cameras)
    modifies server.devices`sessions, server.known
    ensures server.Buffers() == old(server.Buffers()) && server.Valid()
    ensures Ran(server, steps + [ReconnectStep(devId)], cameras)
  {
    ghost var before := server.View();
    var found := server.Reconnect(devId);
    RanMore(server, before, steps, ReconnectStep(devId), cameras);
  }

  /** An event of one of the sessions. */
  method OneOf(server: Server, s: Session, e: Happens, fix: bool, ghost steps: seq<Step<Session>>,
               ghost cameras: map<string, CameraEntry>)
    returns (ghost more: seq<Step<Session>>)
    requires server.Valid() && s in server.known && ValidEvent(e) && Ran(server, steps, cameras)
    modifies s, s.Buffers(), server.devices`sessions
    ensures fresh(server.Buffers() - old(server.Buffers())) && server.Valid() && Ran(server, steps + more, cameras)
  {
    ghost var before := server.View();
    ghost var ends := Ends(e, s.LiveState(), s.timeoutMs);
    server.HandleEvent(s, e, fix);
    more := if ends then [DisconnectStep(s)] else [];
    if ends {
      RanMore(server, before, steps, DisconnectStep(s), cameras);
    } else {
      assert steps + [] == steps;
    }
  }

  /** Main result: every run of the server is a registry run, so that, if all entries of the
      configuration are maps, every session stored is connected and stored under its own
      name: the handlers' "not s.connected" branches cannot be reached. */
  method ServerRun(cameras: map<string, CameraEntry>, es: seq<ServerEvent>, fix: bool)
    returns (server: Server, ghost steps: seq<Step<Session>>)
    requires forall i :: 0 <= i < |es| && es[i].OfSession? ==> ValidEvent(es[i].e)
    ensures fresh(server) && server.Valid() && server.View() == Run(Empty(), steps)
    ensures AllMaps(cameras) ==> StoredAreConnected(server.View())
    ensures AllMaps(cameras) ==> forall d :: d in server.devices.sessions ==>
      server.devices.sessions[d].connected && server.devices.sessions[d].devName == d
  {
    hide HttpServer.Server.Valid, Ran;
    server := new Server(cameras);
    NothingRan(server, cameras);
    var made: seq<Session> := [];
    steps := [];
    for i := 0 to |es|
      invariant fresh(server) && fresh(server.devices) && fresh(server.known) && fresh(server.Buffers())
      invariant server.Valid() && Ran(server, steps, cameras)
      invariant forall k :: 0 <= k < |made| ==> made[k] in server.known
    {
      match es[i]
      case Discovery(ip, devId) =>
        var s;
        ghost var more;
        s, more := Discover(server, ip, devId, steps, cameras);
        made := made + if s.Some? then [s.value] else [];
        steps := steps + more;
      case Reconnection(devId) =>
        Reconnect(server, devId, steps, cameras);
        steps := steps + [ReconnectStep(devId)];
      case OfSession(pick, e) =>
        if pick < |made| {
          assert made[pick].Buffers() <= server.Buffers();
          ghost var more := OneOf(server, made[pick], e, fix, steps, cameras);
          steps := steps + more;
        }
    }
    RanMeans(server, steps, cameras);
  }

  lemma {:induction false} NothingRan(server: Server, cameras: map<string, CameraEntry>)
    requires server.View() == Empty() && server.cameras == cameras
    ensures Ran(server, [], cameras)
  {
  }

  lemma {:induction false} RanMeans(server: Server, steps: seq<Step<Session>>, cameras: map<string, CameraEntry>)
    requires server.Valid() && Ran(server, steps, cameras)
    ensures server.View() == Run(Empty(), steps)
    ensures AllMaps(cameras) ==> StoredAreConnected(server.View()) && forall d :: d in server.devices.sessions ==>
      server.devices.sessions[d].connected && server.devices.sessions[d].devName == d
  {
    if AllMaps(cameras) {
      RegistryInvariant(steps);
      StoredObjectsConnected(server);
    }
  }

  lemma {:induction false} StoredObjectsConnected(server: Server)
    requires server.Valid() && StoredAreConnected(server.View())
    ensures forall d :: d in server.devices.sessions ==>
      server.devices.sessions[d].connected && server.devices.sessions[d].devName == d
  {
    forall d | d in server.devices.sessions
      ensures server.devices.sessions[d].connected && server.devices.sessions[d].devName == d
    {
      assert d in server.View().sessions;
    }
  }
}
