/** The runs of the command channel that a session makes: every command is built, sent once
    under the id it was built with, and from then on left to the resend timer.  Until ids
    wrap, all the results about runs without clashing ids hold of them; when ids wrap, a
    command can be lost. */
module SessionChannel {
  import opened Bytes
  import opened Channel
  import opened ChannelRuns

  /** The channel of a new session. */
  function New<H>(): Chan<H> {
    Chan(0, [])
  }

  ghost function After<H>(steps: seq<Step<H>>): Chan<H> {
    RunSteps(New(), steps)
  }

  /** Step `i`, if it sends, sends a command just built, under the id handed out for it,
      and one that was not sent before. */
  ghost predicate SendsNewCommand<H>(steps: seq<Step<H>>, i: nat)
    requires i < |steps|
  {
    steps[i].SendStep? ==>
      && i > 0 && steps[i - 1].BuildStep? && steps[i].id == After(steps[..i - 1]).nextId % 0x1_0000
      && NeverSent(steps[..i], steps[i].data)
  }

  ghost predicate SessionRun<H>(steps: seq<Step<H>>) {
    forall i :: 0 <= i < |steps| ==> SendsNewCommand(steps, i)
  }

  // -- putting runs together ---------------------------------------------------------

  lemma {:induction false} RunStepsConcat<H>(c: Chan<H>, a: seq<Step<H>>, b: seq<Step<H>>)
    ensures RunSteps(c, a + b) == RunSteps(RunSteps(c, a), b)
    ensures RunOk(c, a + b) <==> RunOk(c, a) && RunOk(RunSteps(c, a), b)
    ensures SendsFit(c, a + b) <==> SendsFit(c, a) && SendsFit(RunSteps(c, a), b)
    decreases |a|
  {
    hide StepOk, SendFits, Next;
    if a == [] {
      assert a + b == b;
    } else {
      RunStepsConcat(Next(c, a[0]), a[1..], b);
      assert (a + b)[0] == a[0] && (a + b)[1..] == a[1..] + b;
    }
  }

  lemma {:induction false} OneStep<H>(c: Chan<H>, s: Step<H>)
    ensures RunSteps(c, [s]) == Next(c, s)
    ensures RunOk(c, [s]) <==> StepOk(c, s)
    ensures SendsFit(c, [s]) <==> SendFits(c, s)
  {
    assert [s][1..] == [];
  }

  lemma {:induction false} Snoc<H>(steps: seq<Step<H>>)
    requires steps != []
    ensures var n := |steps| - 1;
            && After(steps) == Next(After(steps[..n]), steps[n])
            && (RunOk(New(), steps) <==> RunOk(New(), steps[..n]) && StepOk(After(steps[..n]), steps[n]))
            && (SendsFit(New(), steps) <==> SendsFit(New(), steps[..n]) && SendFits(After(steps[..n]), steps[n]))
  {
    var n := |steps| - 1;
    assert steps == steps[..n] + [steps[n]];
    RunStepsConcat(New(), steps[..n], [steps[n]]);
    OneStep(After(steps[..n]), steps[n]);
  }

  lemma {:induction false} SessionRunPrefix<H>(steps: seq<Step<H>>, n: nat)
    requires SessionRun(steps) && n <= |steps|
    ensures SessionRun(steps[..n])
  {
    forall i | 0 <= i < n
      ensures SendsNewCommand(steps[..n], i)
    {
      assert SendsNewCommand(steps, i);
      assert steps[..n][..i] == steps[..i] && (i > 0 ==> steps[..n][..i - 1] == steps[..i - 1]);
    }
  }

  /** What a session run looks like one step later. */
  lemma {:induction false} SessionRunSnoc<H>(steps: seq<Step<H>>, s: Step<H>)
    requires SessionRun(steps) && SendsNewCommand(steps + [s], |steps|)
    ensures SessionRun(steps + [s])
  {
    var more := steps + [s];
    forall i | 0 <= i < |steps|
      ensures SendsNewCommand(more, i)
    {
      assert SendsNewCommand(steps, i);
      assert more[..i] == steps[..i] && (i > 0 ==> more[..i - 1] == steps[..i - 1]);
    }
  }

  /** Builds, acks and resend rounds keep a run a session run. */
  lemma {:induction false} OtherStepKeepsSessionRun<H>(steps: seq<Step<H>>, s: Step<H>)
    requires SessionRun(steps) && !s.SendStep?
    ensures SessionRun(steps + [s]) && After(steps + [s]) == Next(After(steps), s)
  {
    SessionRunSnoc(steps, s);
    Snoc(steps + [s]);
    assert (steps + [s])[..|steps|] == steps;
  }

  /** Sending a new command that was just built keeps a run a session run. */
  lemma {:induction false} SendKeepsSessionRun<H>(steps: seq<Step<H>>, id: nat, data: H, ts: real)
    requires SessionRun(steps) && steps != [] && steps[|steps| - 1].BuildStep?
    requires After(steps).nextId == id + 1 && NeverSent(steps, data)
    ensures var s := SendStep(data, id % 0x1_0000, ts);
            SessionRun(steps + [s]) && After(steps + [s]) == Next(After(steps), s)
  {
    var s := SendStep(data, id % 0x1_0000, ts);
    Snoc(steps);
    assert (steps + [s])[..|steps|] == steps && (steps + [s])[..|steps| - 1] == steps[..|steps| - 1];
    SessionRunSnoc(steps, s);
    Snoc(steps + [s]);
  }

  // -- what holds of every session run ----------------------------------------------------

  /** Everything that waits was sent in the run. */
  ghost predicate AllWereSent<H>(c: Chan<H>, steps: seq<Step<H>>) {
    forall k :: 0 <= k < |c.unacked| ==> !NeverSent(steps, c.unacked[k].data)
  }

  lemma {:induction false} NeverSentSnoc<H>(steps: seq<Step<H>>, n: nat, data: H)
    requires n <= |steps| && NeverSent(steps, data)
    ensures NeverSent(steps[..n], data)
  {
  }

  /** Over every session run, clashing ids or not: every command waits under at most one
      entry, every key belongs to one command, and nothing waits that was not sent.  So the
      bound on waiting times holds of every session run, too. */
  lemma {:induction false} SessionRunFits<H>(steps: seq<Step<H>>)
    requires SessionRun(steps)
    ensures SendsFit(New(), steps) && WellFormed(After(steps)) && AllWereSent(After(steps), steps)
  {
    hide SessionRun, Next, SendsFit, WellFormed;
    if steps != [] {
      var n := |steps| - 1;
      SessionRunPrefix(steps, n);
      SessionRunFits(steps[..n]);
      Snoc(steps);
      LastStepFits(steps);
    } else {
      NewFits<H>();
    }
  }

  lemma {:induction false} NewFits<H>()
    ensures SendsFit<H>(New(), []) && WellFormed<H>(New()) && After<H>([]) == New()
  {
  }

  lemma {:induction false} LastStepFits<H>(steps: seq<Step<H>>)
    requires steps != [] && SessionRun(steps)
    requires WellFormed(After(steps[..|steps| - 1])) && AllWereSent(After(steps[..|steps| - 1]), steps[..|steps| - 1])
    ensures var c, s := After(steps[..|steps| - 1]), steps[|steps| - 1];
            SendFits(c, s) && WellFormed(Next(c, s)) && AllWereSent(Next(c, s), steps)
  {
    var n := |steps| - 1;
    var c, s := After(steps[..n]), steps[n];
    assert SendsNewCommand(steps, n);
    StepKeepsWellFormed(c, s);
    var c' := Next(c, s);
    forall k | 0 <= k < |c'.unacked|
      ensures !NeverSent(steps, c'.unacked[k].data)
    {
      var d := c'.unacked[k].data;
      OnlySentWait(c, s, k);
      if NeverSent(steps, d) {
        NeverSentSnoc(steps, n, d);
        assert false;
      }
    }
  }

  /** Only sending makes a command wait, clashing ids or not. */
  lemma {:induction false} OnlySentWait<H>(c: Chan<H>, s: Step<H>, k: nat)
    requires WellFormed(c) && SendFits(c, s) && k < |Next(c, s).unacked|
    ensures var d := Next(c, s).unacked[k].data;
            (s.SendStep? && s.data == d) || HoldsData(c.unacked, d)
  {
    match s
    case BuildStep =>
    case SendStep(data, id, ts) => PutKeeps(c.unacked, Pending(id, ts, data));
    case AckStep(id) => PopKeeps(c.unacked, id);
    case TickStep(now, clock) => TickKeepsWellFormed(c, now, clock);
  }

  // -- until ids wrap ----------------------------------------------------------------------

  predicate KeysBelowNext<H>(c: Chan<H>) {
    forall i :: 0 <= i < |c.unacked| ==> c.unacked[i].key < c.nextId
  }

  lemma {:induction false} TickWithoutWrap<H>(c: Chan<H>, now: real, clock: nat -> real)
    requires WellFormed(c) && KeysBelowNext(c) && Tick(c, now, clock).nextId <= 0x1_0000
    ensures NoClash(c, now) && KeysBelowNext(Tick(c, now, clock))
  {
    var u, n := c.unacked, |c.unacked|;
    TickCounts(c, now, clock, n);
    assert u[..n] == u;
    NoWrapNoClash(c, now);
    TickClosedForm(c, now, clock);
    RenumberedShape(c, now, clock, n);
    UnagedIsSub(u, now);
    var a, r := Unaged(u, now), Renumbered(c, now, clock, n);
    forall k | 0 <= k < |a|
      ensures a[k].key < c.nextId
    {
      var j :| 0 <= j < n && u[j] == a[k];
    }
    forall k | 0 <= k < |r|
      ensures r[k].key < c.nextId + |r|
    {
      FitsU16(c.nextId + k);
    }
  }

  lemma {:induction false} TickCounts<H>(c: Chan<H>, now: real, clock: nat -> real, i: nat)
    requires i <= |c.unacked|
    ensures TickUpTo(c, now, clock, i).nextId == c.nextId + AgedCount(c.unacked[..i], now)
  {
    if i > 0 {
      TickCounts(c, now, clock, i - 1);
      assert c.unacked[..i][..i - 1] == c.unacked[..i - 1];
    }
  }

  lemma {:induction false} IdsOnlyGrow<H>(c: Chan<H>, s: Step<H>)
    ensures c.nextId <= Next(c, s).nextId
  {
    if s.TickStep? {
      TickCounts(c, s.now, s.clock, |c.unacked|);
    }
  }

  /** A new command, sent directly after it was built. */
  lemma {:induction false} SendIsOk<H>(steps: seq<Step<H>>)
    requires steps != [] && SessionRun(steps) && steps[|steps| - 1].SendStep?
    requires var c := After(steps[..|steps| - 1]);
             c.nextId <= 0x1_0000 && WellFormed(c) && AllWereSent(c, steps[..|steps| - 1])
    requires |steps| > 1 ==> KeysBelowNext(After(steps[..|steps| - 2]))
    ensures var c, s := After(steps[..|steps| - 1]), steps[|steps| - 1];
            StepOk(c, s) && KeysBelowNext(Next(c, s))
  {
    var n := |steps| - 1;
    assert SendsNewCommand(steps, n);
    var c, s, unbuilt := After(steps[..n]), steps[n], After(steps[..n - 1]);
    Snoc(steps[..n]);
    assert steps[..n][..n - 1] == steps[..n - 1];
    FitsU16(unbuilt.nextId);
    PutKeeps(c.unacked, Pending(s.id, s.ts, s.data));
    assert c.unacked == unbuilt.unacked && s.id == unbuilt.nextId;
  }

  /** Until 65536 ids have been handed out, no id is ever shared, whatever a session builds,
      sends, gets acknowledged and sends again. */
  lemma {:induction false} NoWrapRunIsOk<H>(steps: seq<Step<H>>)
    requires SessionRun(steps) && After(steps).nextId <= 0x1_0000
    ensures RunOk(New(), steps) && KeysBelowNext(After(steps))
    decreases |steps|
  {
    hide SessionRun, StepOk, Next;
    if steps != [] {
      var n := |steps| - 1;
      SessionRunPrefix(steps, n);
      Snoc(steps);
      IdsOnlyGrow(After(steps[..n]), steps[n]);
      NoWrapRunIsOk(steps[..n]);
      SessionRunFits(steps[..n]);
      if n > 0 {
        SessionRunPrefix(steps, n - 1);
        Snoc(steps[..n]);
        assert steps[..n][..n - 1] == steps[..n - 1];
        IdsOnlyGrow(After(steps[..n - 1]), steps[..n][n - 1]);
        NoWrapRunIsOk(steps[..n - 1]);
      }
      LastStepIsOk(steps);
    }
  }

  lemma {:induction false} LastStepIsOk<H>(steps: seq<Step<H>>)
    requires steps != [] && SessionRun(steps) && After(steps).nextId <= 0x1_0000
    requires var c := After(steps[..|steps| - 1]);
             && After(steps) == Next(c, steps[|steps| - 1])
             && WellFormed(c) && KeysBelowNext(c) && AllWereSent(c, steps[..|steps| - 1])
    requires |steps| > 1 ==> KeysBelowNext(After(steps[..|steps| - 2]))
    ensures var c, s := After(steps[..|steps| - 1]), steps[|steps| - 1];
            StepOk(c, s) && KeysBelowNext(Next(c, s))
  {
    var c, s := After(steps[..|steps| - 1]), steps[|steps| - 1];
    match s
    case BuildStep =>
    case SendStep(data, id, ts) => SendIsOk(steps);
    case AckStep(id) => PopKeeps(c.unacked, id);
    case TickStep(now, clock) => TickWithoutWrap(c, now, clock);
  }

  /** Main result on sessions: in a run in which no id is shared, a command sent at step `i`
      still waits at the end if and only if no ack arrived for the id it had at that moment. */
  lemma {:induction false} CommandHeldUntilAcked<H>(steps: seq<Step<H>>, i: nat)
    requires SessionRun(steps) && RunOk(New(), steps)
    requires i < |steps| && steps[i].SendStep?
    ensures Waits(After(steps), steps[i].data)
            <==> !AckedUnderLatestId(After(steps[..i + 1]), steps[i + 1..], steps[i].data)
  {
    var sent, rest, data := steps[..i + 1], steps[i + 1..], steps[i].data;
    assert steps == sent + rest;
    RunStepsConcat(New(), sent, rest);
    SessionRunPrefix(steps, i);
    SessionRunFits(steps[..i]);
    Snoc(sent);
    assert sent[..i] == steps[..i];
    StepHolds(After(steps[..i]), steps[i], data);
    OkRunFits(New(), sent);
    RunKeepsWellFormed(New(), sent);
    NotSentAgain(steps, i);
    HeldUntilAcked(After(sent), rest, data);
  }

  lemma {:induction false} NotSentAgain<H>(steps: seq<Step<H>>, i: nat)
    requires SessionRun(steps) && i < |steps| && steps[i].SendStep?
    ensures NeverSent(steps[i + 1..], steps[i].data)
  {
    var rest := steps[i + 1..];
    forall k | 0 <= k < |rest| && rest[k].SendStep?
      ensures rest[k].data != steps[i].data
    {
      var m := i + 1 + k;
      assert SendsNewCommand(steps, m);
      assert steps[..m][i] == steps[i];
    }
  }

  // -- when ids wrap -----------------------------------------------------------------------

  const WRAP: nat := 0x1_0000

  /** The time of round `k`, every 200 ms. */
  function RoundAt(k: nat): real {
    200.0 * (k as real)
  }

  /** Two commands are sent, the first by a clock that is far ahead; the clock is set back,
      and only the second one ages, in every one of `k` rounds. */
  ghost function SetBackRun<H>(a: H, b: H, k: nat): seq<Step<H>> {
    if k == 0 then
      [BuildStep, SendStep(a, 0, RoundAt(WRAP)), BuildStep, SendStep(b, 1, RoundAt(0))]
    else
      SetBackRun(a, b, k - 1) + [TickStep(RoundAt(k), i => RoundAt(k))]
  }

  lemma {:induction false} SetBackRunStarts<H>(a: H, b: H)
    requires a != b
    ensures SessionRun(SetBackRun(a, b, 0))
    ensures After(SetBackRun(a, b, 0)) == Chan(2, [Pending(0, RoundAt(WRAP), a), Pending(1, RoundAt(0), b)])
  {
    var first: seq<Step<H>> := [];
    BuildAndSend(first, 0, a, RoundAt(WRAP));
    var second := first + [BuildStep] + [SendStep(a, 0, RoundAt(WRAP))];
    assert After(second) == Chan(1, [Pending(0, RoundAt(WRAP), a)]);
    PutOnOne(Pending(0, RoundAt(WRAP), a), Pending(1, RoundAt(0), b));
    BuildAndSend(second, 1, b, RoundAt(0));
    assert SetBackRun(a, b, 0) == second + [BuildStep] + [SendStep(b, 1, RoundAt(0))];
  }

  lemma {:induction false} BuildAndSend<H>(steps: seq<Step<H>>, id: nat, data: H, ts: real)
    requires SessionRun(steps) && After(steps).nextId == id < WRAP && NeverSent(steps, data)
    ensures var more := steps + [BuildStep] + [SendStep(data, id, ts)];
            SessionRun(more) && After(more) == Send(Build(After(steps)), data, id, ts)
  {
    OtherStepKeepsSessionRun(steps, BuildStep);
    FitsU16(id);
    assert forall i :: 0 <= i < |steps + [BuildStep]| && (steps + [BuildStep])[i].SendStep? ==> i < |steps|;
    SendKeepsSessionRun(steps + [BuildStep], id, data, ts);
  }

  /** A round in which only the second of two commands is aged. */
  lemma {:induction false} SecondIsRenumbered<H>(c: Chan<H>, now: real, clock: nat -> real)
    requires |c.unacked| == 2 && !Aged(c.unacked[0], now) && Aged(c.unacked[1], now)
    requires c.unacked[0].key != c.unacked[1].key
    ensures var e := Pending(c.nextId % 0x1_0000, clock(1), c.unacked[1].data);
            Tick(c, now, clock)
            == Chan(c.nextId + 1, if c.unacked[0].key == e.key then [e] else [c.unacked[0], e])
  {
    assert TickUpTo(c, now, clock, 1) == c;
    assert Tick(c, now, clock) == Resend(c, c.unacked[1], clock(1));
    assert c.unacked == [c.unacked[0], c.unacked[1]];
    assert c.unacked[1..] == [c.unacked[1]] && c.unacked[1..][1..] == [];
    assert Pop(c.unacked, c.unacked[1].key) == [c.unacked[0]];
    PutOnOne(c.unacked[0], Pending(c.nextId % 0x1_0000, clock(1), c.unacked[1].data));
  }

  lemma {:induction false} PutOnOne<H>(d: Pending<H>, e: Pending<H>)
    ensures Put([d], e) == if d.key == e.key then [e] else [d, e]
  {
    assert [d][1..] == [];
    assert [e] + [] == [e] && [d] + [e] == [d, e];
    assert Put([], e) == [e];
  }

  lemma {:induction false} SetBackState<H>(a: H, b: H, k: nat)
    requires a != b && k + 1 < WRAP
    ensures SessionRun(SetBackRun(a, b, k))
    ensures After(SetBackRun(a, b, k)) == Chan(k + 2, [Pending(0, RoundAt(WRAP), a), Pending(k + 1, RoundAt(k), b)])
  {
    if k == 0 {
      SetBackRunStarts(a, b);
    } else {
      SetBackState(a, b, k - 1);
      var before, s := SetBackRun(a, b, k - 1), TickStep(RoundAt(k), i => RoundAt(k));
      OtherStepKeepsSessionRun(before, s);
      SecondIsRenumbered(After(before), s.now, s.clock);
      FitsU16(k + 1);
    }
  }

  /** The bound is tight: a session run reaches a round that hands out the id of a command
      still waiting, as soon as one id more than 65536 is handed out.  That command is lost,
      without any ack in the run. */
  lemma {:induction false} WrapLosesCommand<H>(a: H, b: H)
    requires a != b
    ensures var steps := SetBackRun(a, b, WRAP - 1);
            var before := SetBackRun(a, b, WRAP - 2);
            && SessionRun(steps) && steps == before + [steps[|steps| - 1]] && steps[|steps| - 1].TickStep?
            && Waits(After(before), a) && After(before).nextId == WRAP
            && !NoClash(After(before), steps[|steps| - 1].now)
            && !Waits(After(steps), a) && After(steps).nextId == WRAP + 1
            && NoAcks(steps)
  {
    var before := SetBackRun(a, b, WRAP - 2);
    var s := TickStep(RoundAt(WRAP - 1), i => RoundAt(WRAP - 1));
    SetBackState(a, b, WRAP - 2);
    var c := After(before);
    assert c.unacked[0].data == a;
    OtherStepKeepsSessionRun(before, s);
    SecondIsRenumbered(c, s.now, s.clock);
    SessionRunFits(before);
    TickKeepsAllIff(c, s.now, s.clock);
    NoAcksInSetBackRun(a, b, WRAP - 1);
  }

  predicate NoAcks<H>(steps: seq<Step<H>>) {
    forall i :: 0 <= i < |steps| ==> !steps[i].AckStep?
  }

  lemma {:induction false} NoAcksInSetBackRun<H>(a: H, b: H, k: nat)
    ensures NoAcks(SetBackRun(a, b, k))
  {
    if k > 0 {
      NoAcksInSetBackRun(a, b, k - 1);
    }
  }
}
