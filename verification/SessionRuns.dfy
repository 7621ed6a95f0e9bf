/** Whole runs of a session: the event loop delivers datagrams and timer ticks in any order,
    and the theorems about the assembler, the command channel, tickets and liveness hold of
    the session object. */
module SessionRuns {
  import opened Bytes
  import opened DataView
  import opened Channel
  import opened FrameAssembler
  import opened Sessions
  import opened Answers
  import opened Handlers
  import opened SessionEvents
  import AssemblerRoundTrip
  import ChannelRuns
  import Discovery
  import SessionChannel
  import Liveness

  // -- what holds of the session after any run -----------------------------------------------

  /** If no id was shared, as is the case until ids wrap, every command ever sent still waits
      for its ack, or was acknowledged under the id it had at that moment. */
  ghost predicate CommandsHeld(s: Session)
    reads s`steps, s`unackedDrw, s`outgoingCommandId
  {
    && (s.outgoingCommandId <= 0x1_0000 ==> ChannelRuns.RunOk(SessionChannel.New(), s.steps))
    && (ChannelRuns.RunOk(SessionChannel.New(), s.steps) ==>
      forall i :: 0 <= i < |s.steps| && s.steps[i].SendStep? ==>
        (ChannelRuns.Waits(s.Chan(), s.steps[i].data) <==>
         !ChannelRuns.AckedUnderLatestId(SessionChannel.After(s.steps[..i + 1]), s.steps[i + 1..], s.steps[i].data)))
  }

  /** Every video command ever transmitted carries the ticket of the login that was the last
      when that command was first transmitted. */
  predicate TicketsCarried(log: seq<LogEntry>) {
    forall i :: 0 <= i < |log| && !log[i].Login? && IsVideoCommand(log[i].datagram) ==>
      var o := FirstTransmission(log, i);
      FirstSentAs(log, o, log[i].datagram) && log[i].datagram[16..20] == PadTicket(LastLogin(log[..o]))
  }

  lemma {:induction false} GoodMeans(s: Session)
    requires Good(s)
    ensures CommandsHeld(s) && TicketsCarried(s.log)
  {
    if s.outgoingCommandId <= 0x1_0000 {
      SessionChannel.NoWrapRunIsOk(s.steps);
    }
    if ChannelRuns.RunOk(SessionChannel.New(), s.steps) {
      forall i | 0 <= i < |s.steps| && s.steps[i].SendStep?
        ensures ChannelRuns.Waits(s.Chan(), s.steps[i].data) <==>
          !ChannelRuns.AckedUnderLatestId(SessionChannel.After(s.steps[..i + 1]), s.steps[i + 1..], s.steps[i].data)
      {
        SessionChannel.CommandHeldUntilAcked(s.steps, i);
      }
    }
    forall i | 0 <= i < |s.log| && !s.log[i].Login? && IsVideoCommand(s.log[i].datagram)
      ensures var o := FirstTransmission(s.log, i);
              && FirstSentAs(s.log, o, s.log[i].datagram)
              && s.log[i].datagram[16..20] == PadTicket(LastLogin(s.log[..o]))
    {
      TransmittedTicket(s.log, i);
    }
  }

  // -- time ------------------------------------------------------------------------------

  /** The start of the last resend round, or `start` if there was none. */
  function LastRound(es: seq<Happens>, start: real): real {
    if es == [] then start
    else if es[|es| - 1].ResendRound? then es[|es| - 1].now
    else LastRound(es[..|es| - 1], start)
  }

  /** The event comes after the last round, and a resend round at most `period` after it. */
  ghost predicate OnTime(e: Happens, last: real, period: real) {
    match e
    case ResendRound(now, clock) => last <= now <= last + period && forall k :: now <= clock(k)
    case Datagram(_, now, _, _) => last <= now
    case _ => true
  }

  ghost predicate AllOnTime(es: seq<Happens>, start: real, period: real) {
    es != [] ==>
      var before := es[..|es| - 1];
      AllOnTime(before, start, period) && OnTime(es[|es| - 1], LastRound(before, start), period)
  }

  /** What an event does to the command channel happens at its time. */
  ghost predicate StepsOf(more: seq<ChannelRuns.Step<DV>>, e: Happens) {
    match e
    case ResendRound(now, clock) => more == [ChannelRuns.TickStep(now, clock)]
    case Datagram(_, now, _, _) =>
      forall i :: 0 <= i < |more| ==> !more[i].TickStep? && (more[i].SendStep? ==> more[i].ts == now)
    case _ => more == []
  }

  lemma {:induction false} IssueIsTimed(cmds: seq<DV>, id: nat, now: real)
    ensures forall i :: 0 <= i < |Issue(cmds, id, now)| ==>
      var s := Issue(cmds, id, now)[i]; !s.TickStep? && (s.SendStep? ==> s.ts == now)
  {
    if cmds != [] {
      IssueIsTimed(cmds[..|cmds| - 1], id, now);
    }
  }

  lemma {:induction false} RoundsApartConcat(a: seq<ChannelRuns.Step<DV>>, b: seq<ChannelRuns.Step<DV>>, start: real,
                                             period: real)
    ensures ChannelRuns.LastRound(a + b, start) == ChannelRuns.LastRound(b, ChannelRuns.LastRound(a, start))
    ensures ChannelRuns.RoundsApart(a + b, start, period) <==>
      ChannelRuns.RoundsApart(a, start, period) && ChannelRuns.RoundsApart(b, ChannelRuns.LastRound(a, start), period)
    decreases |a|
  {
    if a == [] {
      assert a + b == b;
    } else {
      assert (a + b)[0] == a[0] && (a + b)[1..] == a[1..] + b;
      RoundsApartConcat(a[1..], b, if a[0].TickStep? then a[0].now else start, period);
    }
  }

  lemma {:induction false} StepsApart(more: seq<ChannelRuns.Step<DV>>, e: Happens, last: real, period: real)
    requires StepsOf(more, e) && OnTime(e, last, period)
    ensures ChannelRuns.RoundsApart(more, last, period)
    ensures ChannelRuns.LastRound(more, last) == if e.ResendRound? then e.now else last
    decreases |more|
  {
    if e.ResendRound? {
      assert more[1..] == [];
    } else if more != [] {
      StepsApart(more[1..], e, last, period);
    }
  }

  /** The rounds recorded are the rounds of the run. */
  ghost predicate RoundsRecorded(s: Session, es: seq<Happens>, start: real, period: real)
    reads s`steps
  {
    AllOnTime(es, start, period) ==>
      ChannelRuns.RoundsApart(s.steps, start, period) && ChannelRuns.LastRound(s.steps, start) == LastRound(es, start)
  }

  lemma {:induction false} OneInput(st: Asm, e: Event, fix: bool)
    ensures Run(st, [], fix) == Outcome(st, []) && Run(st, [e], fix) == Deliver(st, e, fix)
  {
    assert [e][..0] == [];
  }

  lemma {:induction false} OneHappening(l: Liveness.Live, h: Liveness.Happening, timeoutMs: real)
    ensures Liveness.Run(l, [], timeoutMs) == l && Liveness.Run(l, [h], timeoutMs) == Liveness.Next(l, h, timeoutMs)
  {
    assert [h][..0] == [];
  }

  /** A session between events: its invariants hold, and the log shows every id handed out. */
  ghost predicate Running(s: Session)
    reads s`unackedDrw, s`ticket, s`disconnectListeners, s`log, s`origins, s`steps, s`outgoingCommandId, s.Buffers()
  {
    Good(s) && s.outgoingCommandId == IdsIn(s.log)
  }

  lemma {:induction false} RunningMeans(s: Session)
    requires Running(s)
    ensures Good(s) && s.outgoingCommandId == IdsIn(s.log) && s.ticket == LastLogin(s.log) && |s.ticket| <= 4
    ensures OwnDisconnect in s.disconnectListeners
  {
  }

  lemma {:induction false} StillRunning(s: Session)
    requires Good(s) && s.outgoingCommandId == IdsIn(s.log)
    ensures Running(s)
  {
  }

  lemma {:induction false} NewIsRunning(s: Session)
    requires s.Valid() && s.TicketsOk() && s.Recorded() && s.log == [] && s.outgoingCommandId == 0
    ensures Running(s)
  {
  }

  lemma {:induction false} AckStepsKeepIds(c: Chan<DV>, ids: seq<nat>)
    ensures ChannelRuns.RunSteps(c, AckSteps(ids)).nextId == c.nextId
    decreases |ids|
  {
    if ids != [] {
      AckStepsKeepIds(Ack(c, ids[0]), ids[1..]);
      assert AckSteps(ids)[1..] == AckSteps(ids[1..]);
    }
  }

  lemma {:induction false} IssueTakesIds(c: Chan<DV>, cmds: seq<DV>, id: nat, now: real)
    ensures ChannelRuns.RunSteps(c, Issue(cmds, id, now)).nextId == c.nextId + |cmds|
  {
    if cmds != [] {
      var n := |cmds| - 1;
      var send := ChannelRuns.SendStep(cmds[n], (id + n) % 0x1_0000, now);
      IssueTakesIds(c, cmds[..n], id, now);
      SessionChannel.RunStepsConcat(c, Issue(cmds[..n], id, now), [ChannelRuns.BuildStep, send]);
      var c' := ChannelRuns.RunSteps(c, Issue(cmds[..n], id, now));
      SessionChannel.RunStepsConcat(c', [ChannelRuns.BuildStep], [send]);
      SessionChannel.OneStep(c', ChannelRuns.BuildStep);
      SessionChannel.OneStep(Build(c'), send);
      assert [ChannelRuns.BuildStep] + [send] == [ChannelRuns.BuildStep, send];
    }
  }

  /** A datagram, as the run theorems see it. */
  method Receive(s: Session, e: Happens, fix: bool)
    returns (ghost more: seq<ChannelRuns.Step<DV>>, ghost part: seq<LogEntry>)
    requires Running(s) && e.Datagram?
    modifies s, s.devices`sessions
    ensures fresh(s.Buffers() - old(s.Buffers())) && Running(s)
    ensures var o := Run(old(s.Asm()), DataEvent(e), fix);
            s.Asm() == o.asm && s.frames == old(s.frames) + o.emitted
    ensures s.LiveState() == Liveness.Run(old(s.LiveState()), Heard(e, old(s.Asm())), s.timeoutMs)
    ensures s.steps == old(s.steps) + more && StepsOf(more, e)
    ensures s.log == old(s.log) + part && Adds(e, old(s.log), part, old(s.LiveState()))
    ensures s.disconnectListeners == old(s.disconnectListeners)
    ensures s.devices.sessions == old(s.devices.sessions) - if Closes(e.msg) then Dropped(s.disconnectListeners) else {}
  {
    hide Good, Running, Raises, Transcript, ChannelSteps, Commands, Classify, Deliver, Run, Liveness.Next, Liveness.Run;
    hide IdsIn, Closes, Issue, Dropped;
    RunningMeans(s);
    OneInput(s.Asm(), Event(Classify(e.msg), e.raises), fix);
    OneHappening(s.LiveState(), Heard(e, s.Asm())[0], s.timeoutMs);
    ghost var c, id, ticket := s.Chan(), s.outgoingCommandId, s.ticket;
    part := Transcript(e.msg, id, ticket, e.onLogin);
    TranscriptCounts(e.msg, id, ticket, e.onLogin);
    TicketsConcat(s.log, part);
    var ok, cmds := HandleIncoming(s, e.msg, e.now, fix, e.raises, e.onLogin);
    more := ChannelSteps(e.msg, cmds, id, e.now);
    ChannelStepsAreTimed(e, cmds, id);
    ChannelTakesIds(c, e, cmds, id, ticket);
    StillRunning(s);
  }

  lemma {:induction false} ChannelTakesIds(c: Chan<DV>, e: Happens, cmds: seq<DV>, id: nat, ticket: Chunk)
    requires e.Datagram? && |cmds| == |Commands(e.msg, id, ticket, e.onLogin)|
    ensures ChannelRuns.RunSteps(c, ChannelSteps(e.msg, cmds, id, e.now)).nextId == c.nextId + |cmds|
  {
    if 8 <= |e.msg| && Is(e.msg, DRW_ACK) {
      AckStepsKeepIds(c, AckIds(e.msg, AckCount(e.msg)));
    } else {
      IssueTakesIds(c, cmds, id, e.now);
    }
  }

  lemma {:induction false} ChannelStepsAreTimed(e: Happens, cmds: seq<DV>, id: nat)
    requires e.Datagram?
    ensures StepsOf(ChannelSteps(e.msg, cmds, id, e.now), e)
  {
    IssueIsTimed(cmds, id, e.now);
  }

  lemma {:induction false} RoundLogIsResent(c: Chan<DV>, now: real, origins: map<ByteBuffer, nat>,
                                            held: seq<Chunk>, i: nat)
    requires i <= |c.unacked| && i <= |held|
    ensures var part := RoundLog(c, now, origins, held, i);
            AllResent(part) && |part| == AgedCount(c.unacked[..i], now)
  {
    if i > 0 {
      RoundLogIsResent(c, now, origins, held, i - 1);
      assert c.unacked[..i][..i - 1] == c.unacked[..i - 1];
    }
  }

  method Resend(s: Session, now: real, clock: nat -> real) returns (ghost part: seq<LogEntry>)
    requires Running(s)
    modifies s`unackedDrw, s`outgoingCommandId, s`log, s`origins, s`steps, s.Buffers()
    ensures s.Buffers() <= old(s.Buffers()) && Running(s)
    ensures s.log == old(s.log) + part && AllResent(part)
    ensures s.steps == old(s.steps) + [ChannelRuns.TickStep(now, clock)]
  {
    hide EntryDone, Tick, LogOk, LastLogin, Sessions.Session.OriginsOk, SessionChannel.SessionRun, SessionChannel.After;
    ghost var c, u := s.Chan(), s.unackedDrw;
    SessionChannel.TickCounts(c, now, clock, |u|);
    TickIs(c, now, clock);
    s.ResendTick(now, clock);
    part := RoundLog(c, now, s.origins, Contents(u), |u|);
    RoundLogIsResent(c, now, s.origins, Contents(u), |u|);
    ResentBringsNoTicket(part);
    TicketsConcat(old(s.log), part);
  }

  lemma {:induction false} TickIs(c: Chan<DV>, now: real, clock: nat -> real)
    ensures Tick(c, now, clock) == TickUpTo(c, now, clock, |c.unacked|)
  {
  }

  /** The event ends the session, `live` being what the session timer sees at the time. */
  predicate Ends(e: Happens, live: Liveness.Live, timeoutMs: real) {
    match e
    case Datagram(msg, _, _, _) => Closes(msg)
    case TimerTick(now) => live.started && now - live.lastReceived > timeoutMs
    case _ => false
  }

  lemma {:induction false} EndsDisconnects(e: Happens, live: Liveness.Live, st: Asm, timeoutMs: real)
    ensures Liveness.Run(live, Heard(e, st), timeoutMs).connected == (live.connected && !Ends(e, live, timeoutMs))
  {
    hide Raises, Closes, IsAlive;
    if !e.ResendRound? {
      OneHappening(live, Heard(e, st)[0], timeoutMs);
    }
  }

  /** One event. */
  method Handle(s: Session, e: Happens, fix: bool)
    returns (ghost more: seq<ChannelRuns.Step<DV>>, ghost part: seq<LogEntry>)
    requires Running(s) && ValidEvent(e)
    modifies s, s.Buffers(), s.devices`sessions
    ensures fresh(s.Buffers() - old(s.Buffers())) && Running(s)
    ensures var o := Run(old(s.Asm()), DataEvent(e), fix);
            s.Asm() == o.asm && s.frames == old(s.frames) + o.emitted
    ensures s.LiveState() == Liveness.Run(old(s.LiveState()), Heard(e, old(s.Asm())), s.timeoutMs)
    ensures s.steps == old(s.steps) + more && StepsOf(more, e)
    ensures s.log == old(s.log) + part && Adds(e, old(s.log), part, old(s.LiveState()))
    ensures s.disconnectListeners == old(s.disconnectListeners)
    ensures s.devices.sessions == old(s.devices.sessions)
      - if Ends(e, old(s.LiveState()), s.timeoutMs) then Dropped(s.disconnectListeners) else {}
  {
    hide Good, Running, Raises, Deliver, Run, Liveness.Next, Liveness.Run, IdsIn, Transcript, Dropped, Closes;
    if e.Datagram? {
      more, part := Receive(s, e, fix);
      return;
    }
    more, part := [], [];
    OneInput(s.Asm(), Event(Ignored, false), fix);
    if e.ResendRound? {
      OneHappening(s.LiveState(), Liveness.Started, s.timeoutMs);
      part := Resend(s, e.now, e.clock);
      more := [ChannelRuns.TickStep(e.now, e.clock)];
    } else {
      part := StartOrTick(s, e);
    }
  }

  /** The start of the session, or a turn of its timer: neither takes an id. */
  method StartOrTick(s: Session, e: Happens) returns (ghost part: seq<LogEntry>)
    requires Running(s) && ValidEvent(e) && (e.Connected? || e.TimerTick?)
    modifies s`unackedDrw, s`log, s`origins, s`started
    modifies s`connected, s`dstIp, s`timersRunning, s`transportOpen, s.devices`sessions
    ensures s.Buffers() == old(s.Buffers()) && Running(s)
    ensures s.LiveState() == Liveness.Run(old(s.LiveState()), Heard(e, s.Asm()), s.timeoutMs)
    ensures s.log == old(s.log) + part && Adds(e, old(s.log), part, old(s.LiveState()))
    ensures s.devices.sessions == old(s.devices.sessions)
      - if Ends(e, old(s.LiveState()), s.timeoutMs) then Dropped(s.disconnectListeners) else {}
  {
    hide Good, Running, Liveness.Run, IdsIn, Dropped, Keepalive, Discovery.ReadyPacket;
    RunningMeans(s);
    OneHappening(s.LiveState(), if e.Connected? then Liveness.Started else Liveness.SessionTick(e.now), s.timeoutMs);
    if e.Connected? {
      part := [Sent(Discovery.ReadyPacket(e.dev))];
      ReadyUsesNoId(e.dev);
      ConnectionMade(s, e.dev, e.now);
    } else {
      part := if s.started && e.now - s.lastReceivedPacket > 600.0 then [Sent(Keepalive(P2P_ALIVE))] else [];
      KeepaliveUsesNoId(P2P_ALIVE);
      SessionTimerTick(s, e.now);
    }
    if part != [] {
      OneEntry(part[0]);
    }
    OneEntry(Login([]));
    TicketsConcat(old(s.log), part);
    StillRunning(s);
  }

  lemma {:induction false} ReadyUsesNoId(dev: Discovery.DevSerial)
    requires IsLatin1(dev.prefix) && IsLatin1(dev.suffix)
    ensures !IsCommand(Discovery.ReadyPacket(dev))
  {
    Discovery.ReadyIsNoCommand(dev);
  }

  /** What a run makes of the assembler, of the session timer's state and of the log. */
  ghost predicate Seen(s: Session, es: seq<Happens>, fix: bool)
    requires ValidEvents(es)
    reads s
  {
    && Leaves(es, s.log, fix, s.timeoutMs)
    && s.Asm() == Run(INITIAL, DataEvents(es), fix).asm && s.frames == Run(INITIAL, DataEvents(es), fix).emitted
    && s.LiveState() == Liveness.Run(Liveness.NEW, AllHeard(es, fix), s.timeoutMs)
  }

  lemma {:induction false} LiveRunConcat(l: Liveness.Live, a: seq<Liveness.Happening>, b: seq<Liveness.Happening>,
                                         timeoutMs: real)
    ensures Liveness.Run(l, a + b, timeoutMs) == Liveness.Run(Liveness.Run(l, a, timeoutMs), b, timeoutMs)
  {
    if b == [] {
      assert a + b == a;
    } else {
      var n := |b| - 1;
      LiveRunConcat(l, a, b[..n], timeoutMs);
      assert (a + b)[..|a| + n] == a + b[..n];
    }
  }

  /** One event more, `log` being the log before it. */
  lemma {:induction false} SeenMore(s: Session, es: seq<Happens>, fix: bool, asm: Asm, frames: seq<Image>,
                                    live: Liveness.Live, log: seq<LogEntry>, part: seq<LogEntry>)
    requires es != [] && ValidEvents(es)
    requires var before := es[..|es| - 1];
             && asm == Run(INITIAL, DataEvents(before), fix).asm
             && frames == Run(INITIAL, DataEvents(before), fix).emitted
             && live == Liveness.Run(Liveness.NEW, AllHeard(before, fix), s.timeoutMs)
             && Leaves(before, log, fix, s.timeoutMs)
    requires var o := Run(asm, DataEvent(es[|es| - 1]), fix); s.Asm() == o.asm && s.frames == frames + o.emitted
    requires s.LiveState() == Liveness.Run(live, Heard(es[|es| - 1], asm), s.timeoutMs)
    requires s.log == log + part && Adds(es[|es| - 1], log, part, live)
    ensures Seen(s, es, fix)
  {
    hide Adds;
    var before, e := es[..|es| - 1], es[|es| - 1];
    RunConcat(INITIAL, DataEvents(before), DataEvent(e), fix);
    LiveRunConcat(Liveness.NEW, AllHeard(before, fix), Heard(e, asm), s.timeoutMs);
    LeavesMore(es, log, part, fix, s.timeoutMs);
  }

  lemma {:induction false} RecordedMore(s: Session, es: seq<Happens>, steps: seq<ChannelRuns.Step<DV>>,
                                        more: seq<ChannelRuns.Step<DV>>, start: real, period: real)
    requires es != [] && s.steps == steps + more && StepsOf(more, es[|es| - 1])
    requires AllOnTime(es[..|es| - 1], start, period) ==>
      ChannelRuns.RoundsApart(steps, start, period)
      && ChannelRuns.LastRound(steps, start) == LastRound(es[..|es| - 1], start)
    ensures RoundsRecorded(s, es, start, period)
  {
    if AllOnTime(es, start, period) {
      RoundsApartConcat(steps, more, start, period);
      StepsApart(more, es[|es| - 1], LastRound(es[..|es| - 1], start), period);
    }
  }

  /** No command that waits was last sent more than 100 ms before the last resend round. */
  lemma {:induction false} RunWaitIsBounded(s: Session, es: seq<Happens>, start: real, period: real)
    requires Good(s) && RoundsRecorded(s, es, start, period) && AllOnTime(es, start, period)
    ensures ChannelRuns.SentSince(s.Chan(), LastRound(es, start) - RESEND_AFTER_MS)
  {
    SessionChannel.SessionRunFits(s.steps);
    assert s.steps[..|s.steps|] == s.steps;
    ChannelRuns.WaitIsBounded(SessionChannel.New(), s.steps, |s.steps|, start, period, LastRound(es, start) + period);
  }

  lemma {:induction false} NothingSeen(s: Session, fix: bool, start: real, period: real)
    requires s.Asm() == INITIAL && s.frames == [] && s.steps == [] && s.LiveState() == Liveness.NEW
    requires s.Valid() && s.TicketsOk() && s.Recorded() && s.log == [] && s.outgoingCommandId == 0
    ensures Running(s) && Seen(s, [], fix) && RoundsRecorded(s, [], start, period)
  {
  }

  /** The run `es`, of which only the last event, `e`, is still to be handled. */
  method Advance(s: Session, e: Happens, ghost es: seq<Happens>, fix: bool, ghost start: real, ghost period: real)
    requires Running(s) && es != [] && e == es[|es| - 1] && ValidEvents(es)
    requires Seen(s, es[..|es| - 1], fix) && RoundsRecorded(s, es[..|es| - 1], start, period)
    modifies s, s.Buffers(), s.devices`sessions
    ensures fresh(s.Buffers() - old(s.Buffers())) && Running(s)
    ensures Seen(s, es, fix) && RoundsRecorded(s, es, start, period)
  {
    hide Running, StepsOf, AllOnTime, ChannelRuns.RoundsApart, Run, Liveness.Run, Adds, Leaves, Ends, Dropped;
    ghost var asm, frames, live, steps, log := s.Asm(), s.frames, s.LiveState(), s.steps, s.log;
    ghost var more, part := Handle(s, e, fix);
    SeenMore(s, es, fix, asm, frames, live, log, part);
    RecordedMore(s, es, steps, more, start, period);
  }

  /** Nothing that happened closed the session, and no tick came too late after the camera
      was last heard. */
  ghost predicate NeverEnds(hs: seq<Liveness.Happening>, timeoutMs: real) {
    forall k :: 0 <= k < |hs| ==> !Liveness.EndsAt(hs, k, timeoutMs)
  }

  lemma {:induction false} RunConnected(hs: seq<Liveness.Happening>, timeoutMs: real)
    ensures Liveness.Run(Liveness.NEW, hs, timeoutMs).connected <==> NeverEnds(hs, timeoutMs)
  {
    hide Liveness.Run;
    Liveness.ConnectedIff(hs, timeoutMs);
  }

  lemma {:induction false} RunMeans(s: Session, es: seq<Happens>, fix: bool, start: real, period: real)
    requires ValidEvents(es) && Running(s) && Seen(s, es, fix) && RoundsRecorded(s, es, start, period)
    ensures CommandsHeld(s) && TicketsCarried(s.log) && Tickets(s.log) == TicketsReceived(es)
    ensures s.connected <==> NeverEnds(AllHeard(es, fix), s.timeoutMs)
    ensures AllOnTime(es, start, period) ==> ChannelRuns.SentSince(s.Chan(), LastRound(es, start) - RESEND_AFTER_MS)
  {
    hide CommandsHeld, TicketsCarried, AllOnTime, ChannelRuns.SentSince, RoundsRecorded, Good, Leaves;
    hide NeverEnds, AllHeard, Liveness.Run, Tickets, TicketsReceived;
    GoodMeans(s);
    RunConnected(AllHeard(es, fix), s.timeoutMs);
    LoginsAreReceived(es, s.log, fix, s.timeoutMs);
    if AllOnTime(es, start, period) {
      RunWaitIsBounded(s, es, start, period);
    }
  }

  /** Main result: any run of a session, from its making on, over any datagrams and ticks.
      The run theorems of the assembler and of the command channel are about the object's own
      state; it is connected exactly if nothing closed it and every tick found the camera
      heard in time; the log is the transcript of the run, its logins those of the
      datagrams received; with resend rounds at most `period` apart no command that waits was
      last sent more than 100 ms before the last round. */
  method SessionRun(devName: string, ip: string, timeoutMs: real, es: seq<Happens>, fix: bool,
                    ghost start: real, ghost period: real)
    returns (s: Session)
    requires ValidEvents(es)
    ensures fresh(s) && Running(s) && s.timeoutMs == timeoutMs
    ensures Seen(s, es, fix) && Tickets(s.log) == TicketsReceived(es)
    ensures CommandsHeld(s) && TicketsCarried(s.log)
    ensures s.connected <==> NeverEnds(AllHeard(es, fix), timeoutMs)
    ensures AllOnTime(es, start, period) ==> ChannelRuns.SentSince(s.Chan(), LastRound(es, start) - RESEND_AFTER_MS)
  {
    hide Running, CommandsHeld, TicketsCarried, AllOnTime, ChannelRuns.SentSince, RoundsRecorded, StepsOf, Seen;
    hide Tickets, TicketsReceived, NeverEnds, AllHeard;
    var devices := new Devices();
    s := new Session(devName, ip, timeoutMs, devices);
    NothingSeen(s, fix, start, period);
    assert es[..0] == [];
    for i := 0 to |es|
      invariant fresh(s.Buffers()) && Running(s) && s.timeoutMs == timeoutMs && s.devices == devices
      invariant Seen(s, es[..i], fix) && RoundsRecorded(s, es[..i], start, period)
    {
      assert es[..i + 1][..i] == es[..i];
      Advance(s, es[i], es[..i + 1], fix, start, period);
    }
    assert es[..|es|] == es;
    RunMeans(s, es, fix, start, period);
  }

  // -- frames ------------------------------------------------------------------------------

  /** The data datagrams of a run, in order. */
  function DataReceived(es: seq<Happens>): seq<Chunk> {
    if es == [] then []
    else
      var e := es[|es| - 1];
      DataReceived(es[..|es| - 1]) + if e.Datagram? && IsData(e.msg) then [e.msg] else []
  }

  predicate NoListenerRaises(es: seq<Happens>) {
    forall i :: 0 <= i < |es| && es[i].Datagram? ==> !es[i].raises
  }

  lemma {:induction false} DataEventsAreInputs(es: seq<Happens>)
    requires NoListenerRaises(es)
    ensures DataEvents(es) == AssemblerRoundTrip.Inputs(DataReceived(es))
  {
    if es != [] {
      DataEventsAreInputs(es[..|es| - 1]);
    }
  }

  /** Frames reach the listeners: if the data datagrams of a run that carry video are those of
      some frames in order, with anything else in between, the images handed to the "frame"
      listeners are all of them but the last, chunk for chunk, and the session holds the last. */
  lemma {:induction false} FramesReachListeners(s: Session, es: seq<Happens>,
                                                fs: seq<AssemblerRoundTrip.Frame>, fix: bool)
    requires ValidEvents(es) && NoListenerRaises(es) && Seen(s, es, fix)
    requires fs != [] && AssemblerRoundTrip.NoWrapInside(fs)
    requires AssemblerRoundTrip.VideoOnly(DataReceived(es)) == AssemblerRoundTrip.AllDatagrams(fs)
    ensures s.frames == AssemblerRoundTrip.Images(fs[..|fs| - 1]) && s.curImage == fs[|fs| - 1].Chunks()
  {
    DataEventsAreInputs(es);
    AssemblerRoundTrip.RoundTrip(fs, DataReceived(es), fix);
  }
}
