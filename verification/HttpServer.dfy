/** The part of cam_reverse/http_server.py that keeps the registry, on session objects whose
    closes and timeouts come from the datagrams and ticks that they handle. */
module HttpServer {
  import opened Bytes
  import opened DataView
  import opened Sessions
  import opened SessionEvents
  import opened SessionRuns
  import opened Registry
  import Liveness

  /** A camera's entry in the configuration: a map whose keys may be missing, or, from a
      hand-written file, something that is no map. */
  datatype CameraEntry = NotAMap | Entry(rotate: Option<nat>, mirror: Option<bool>, audio: Option<bool>)

  const EMPTY_ENTRY: CameraEntry := Entry(None, None, None)

  function OrElse<T>(o: Option<T>, default: T): Option<T> {
    if o.Some? then o else Some(default)
  }

  /** The defaults, overlaid with what the entry has. */
  function WithDefaults(e: CameraEntry): CameraEntry
    requires e.Entry?
  {
    Entry(OrElse(e.rotate, 0), OrElse(e.mirror, false), OrElse(e.audio, true))
  }

  /** What the entry has is kept, and the rest is no rotation, no mirror, and sound. */
  lemma {:induction false} DefaultsKeepSettings(e: CameraEntry)
    requires e.Entry?
    ensures var d := WithDefaults(e);
            && d.Entry? && d.rotate.Some? && d.mirror.Some? && d.audio.Some?
            && (if e.rotate.Some? then d.rotate == e.rotate else d.rotate.value == 0)
            && (if e.mirror.Some? then d.mirror == e.mirror else !d.mirror.value)
            && (if e.audio.Some? then d.audio == e.audio else d.audio.value)
            && WithDefaults(d) == d
  {
  }

  class Server {
    const devices: Devices
    var cameraIps: map<string, string>
    var cameras: map<string, CameraEntry>
    ghost var known: set<Session>   // every session ever made

    constructor (cameras: map<string, CameraEntry>)
      ensures Valid() && View() == Empty() && this.cameras == cameras && cameraIps == map[]
      ensures fresh(devices) && known == {}
    {
      devices := new Devices();
      cameraIps, known := map[], {};
      this.cameras := cameras;
    }

    ghost function Buffers(): set<ByteBuffer>
      reads `known, known
    {
      set s, b | s in known && b in s.Buffers() :: b
    }

    /** Every session ever made keeps its invariants and shares no buffer with another. */
    ghost predicate Valid()
      reads `known, devices, known, Buffers()
    {
      && (forall d :: d in devices.sessions ==> devices.sessions[d] in known)
      && (forall s :: s in known ==> s.devices == devices && Running(s))
      && (forall s, t :: s in known && t in known && s != t ==> s.Buffers() !! t.Buffers())
    }

    ghost function View(): Reg<Session>
      reads `known, devices, known
    {
      Reg(devices.sessions, map s | s in known :: Info(s.devName, s.connected, s.disconnectListeners))
    }

    predicate EntryIsMap(devId: string)
      reads `cameras
    {
      devId in cameras ==> cameras[devId].Entry?
    }

    /** Makes and stores a session; its listeners beyond its own come later. */
    method MakeSession(devId: string, ip: string) returns (s: Session)
      requires Valid() && devId !in devices.sessions
      modifies devices`sessions, this`known
      ensures fresh(s) && known == old(known) + {s} && Buffers() == old(Buffers()) && Valid()
      ensures devices.sessions == old(devices.sessions)[devId := s]
      ensures s.devName == devId && s.dstIp == ip && s.connected && s.disconnectListeners == [OwnDisconnect]
      ensures s.timeoutMs == 5000.0
    {
      hide Running;
      s := new Session(devId, ip, 5000.0, devices);
      NewIsRunning(s);
      devices.sessions := devices.sessions[devId := s];
      known := known + {s};
      forall t | t in old(known)
        ensures t.Buffers() == old(t.Buffers()) && Running(t)
      {
      }
      assert s.Buffers() == {};
    }

    /** Registers the server's own "disconnect" listener. */
    method Listen(s: Session, devId: string)
      requires Valid() && s in known
      modifies s`disconnectListeners
      ensures Buffers() == old(Buffers()) && Valid()
      ensures s.disconnectListeners == old(s.disconnectListeners) + [DropDevice(devId)]
    {
      Append(s, devId);
      hide Running;
      forall t | t in known
        ensures t.Buffers() == old(t.Buffers()) && Running(t)
      {
      }
    }

    method Append(s: Session, devId: string)
      requires Running(s)
      modifies s`disconnectListeners
      ensures s.Buffers() == old(s.Buffers()) && Running(s)
      ensures s.disconnectListeners == old(s.disconnectListeners) + [DropDevice(devId)]
    {
      s.disconnectListeners := s.disconnectListeners + [DropDevice(devId)];
    }

    /** Storing a new session is the abstract discovery. */
    lemma {:induction false} Discovered(before: Reg<Session>, after: Reg<Session>, s: Session,
                                        devId: string, entryIsMap: bool)
      requires devId !in before.sessions && s !in before.info
      requires after.sessions == before.sessions[devId := s] && after.info.Keys == before.info.Keys + {s}
      requires after.info[s]
               == Info(devId, true, if entryIsMap then [OwnDisconnect, DropDevice(devId)] else [OwnDisconnect])
      requires forall t :: t in before.info ==> after.info[t] == before.info[t]
      ensures after == Discover(before, devId, s, entryIsMap)
    {
      assert after.info == before.info[s := after.info[s]];
    }

    method OnDiscover(ip: string, devId: string) returns (r: Result<()>)
      requires Valid()
      modifies devices`sessions, this`known, this`cameraIps, this`cameras
      ensures Buffers() == old(Buffers()) && old(known) <= known && fresh(known - old(known)) && Valid()
      ensures devId in old(devices.sessions) ==>
        r.Ok? && View() == old(View()) && cameraIps == old(cameraIps) && cameras == old(cameras)
      ensures devId !in old(devices.sessions) ==>
        devId in devices.sessions && fresh(devices.sessions[devId])
        && View() == Discover(old(View()), devId, devices.sessions[devId], old(EntryIsMap(devId)))
        && cameraIps == old(cameraIps)[devId := ip]
        && devices.sessions[devId].dstIp == ip && devices.sessions[devId].timeoutMs == 5000.0
      ensures r.Raise? <==> devId !in old(devices.sessions) && !old(EntryIsMap(devId))
      ensures r.Raise? ==> cameras == old(cameras)
      ensures r.Ok? && devId !in old(devices.sessions) ==>
        var entry := if devId in old(cameras) then old(cameras)[devId] else EMPTY_ENTRY;
        cameras == old(cameras)[devId := WithDefaults(entry)]
    {
      hide Valid;
      if devId in devices.sessions {
        return Ok(());
      }
      ghost var before := View();
      cameraIps := cameraIps[devId := ip];
      assert Buffers() == old(Buffers());
      var s := MakeSession(devId, ip);
      var entry := if devId in cameras then cameras[devId] else EMPTY_ENTRY;
      if entry.NotAMap? {
        Discovered(before, View(), s, devId, false);
        return Raise(TypeError);
      }
      cameras := cameras[devId := WithDefaults(entry)];
      assert Buffers() == old(Buffers());
      Listen(s, devId);
      Discovered(before, View(), s, devId, true);
      return Ok(());
    }

    /** The end of a session is the abstract disconnection. */
    lemma {:induction false} Ended(before: Reg<Session>, after: Reg<Session>, s: Session)
      requires s in before.info && OwnDisconnect in before.info[s].listeners
      requires after.sessions == before.sessions - Dropped(before.info[s].listeners)
      requires after.info.Keys == before.info.Keys && after.info[s] == before.info[s].(connected := false)
      requires forall t :: t in before.info && t != s ==> after.info[t] == before.info[t]
      ensures after == Disconnect(before, s)
    {
      InvokeAllClosed(before, s, before.info[s].listeners);
      assert after.info == before.info[s := after.info[s]];
    }

    /** `emit("disconnect")` of session `s`: the listeners registered by now, in order. */
    method EmitDisconnect(s: Session)
      requires Valid() && s in known
      modifies devices`sessions, s`connected, s`dstIp, s`timersRunning, s`transportOpen
      ensures Buffers() == old(Buffers()) && Valid() && View() == Disconnect(old(View()), s)
      ensures !s.connected && devices.sessions == old(devices.sessions) - Dropped(s.disconnectListeners)
    {
      hide Running, Dropped, Disconnect;
      RunningMeans(s);
      ghost var before := View();
      s.EmitDisconnect();
      forall t | t in known
        ensures t.Buffers() == old(t.Buffers()) && Running(t)
      {
      }
      Ended(before, View(), s);
    }

    function Stored(devId: string): set<Session>
      reads devices
    {
      if devId in devices.sessions then {devices.sessions[devId]} else {}
    }

    lemma {:induction false} DropsIts(ls: seq<Listener>, devId: string)
      ensures DropDevice(devId) in ls ==> devId in Dropped(ls)
    {
      if ls != [] {
        DropsIts(ls[..|ls| - 1], devId);
        assert ls == ls[..|ls| - 1] + [ls[|ls| - 1]];
      }
    }

    /** `_handle_camera_reconnect`, up to the new probe: answers whether the camera is known. */
    method Reconnect(devId: string) returns (found: bool)
      requires Valid()
      modifies devices`sessions, Stored(devId)`connected, Stored(devId)`dstIp,
               Stored(devId)`timersRunning, Stored(devId)`transportOpen
      ensures Buffers() == old(Buffers()) && Valid() && View() == Registry.Reconnect(old(View()), devId)
      ensures devId in old(devices.sessions) ==>
        var s := old(devices.sessions[devId]);
        !s.connected && devices.sessions == old(devices.sessions) - Dropped(s.disconnectListeners)
      ensures (devId in old(devices.sessions)
               && DropDevice(devId) in old(devices.sessions[devId]).disconnectListeners) ==>
        devId !in devices.sessions
      ensures devId !in old(devices.sessions) ==> devices.sessions == old(devices.sessions)
      ensures found <==> devId in old(devices.sessions) || devId in cameraIps
    {
      found := devId in devices.sessions || devId in cameraIps;
      if devId in devices.sessions {
        DropsIts(devices.sessions[devId].disconnectListeners, devId);
        EmitDisconnect(devices.sessions[devId]);
      }
    }

    /** An event of session `s`, as the server sees it. */
    method Happen(s: Session, e: Happens, fix: bool)
      requires Valid() && s in known && ValidEvent(e)
      modifies s, s.Buffers(), devices`sessions
      ensures fresh(Buffers() - old(Buffers())) && Valid() && s.disconnectListeners == old(s.disconnectListeners)
      ensures var ends := Ends(e, old(s.LiveState()), s.timeoutMs);
              && devices.sessions == old(devices.sessions) - (if ends then Dropped(s.disconnectListeners) else {})
              && s.connected == (old(s.connected) && !ends)
    {
      hide Running, Ends, Heard, Adds, StepsOf, Liveness.Run, IdsIn, Dropped;
      EndsDisconnects(e, s.LiveState(), s.Asm(), s.timeoutMs);
      ghost var more, part := Handle(s, e, fix);
      forall t | t in known && t != s
        ensures t.Buffers() == old(t.Buffers()) && Running(t)
      {
      }
    }

    /** An event of session `s`, stored or long forgotten: a Close or a timeout emits
        "disconnect", and nothing else touches the registry. */
    method HandleEvent(s: Session, e: Happens, fix: bool)
      requires Valid() && s in known && ValidEvent(e)
      modifies s, s.Buffers(), devices`sessions
      ensures fresh(Buffers() - old(Buffers())) && Valid()
      ensures View() == if Ends(e, old(s.LiveState()), s.timeoutMs) then Disconnect(old(View()), s) else old(View())
    {
      hide Running, Ends, Dropped, Disconnect;
      RunningMeans(s);
      ghost var before, ends := View(), Ends(e, s.LiveState(), s.timeoutMs);
      Happen(s, e, fix);
      if ends {
        Ended(before, View(), s);
      }
    }
  }
}
