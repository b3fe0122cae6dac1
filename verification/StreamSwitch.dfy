/** The warm-then-promote handover of internal/ai/switch.go as a state machine over its critical sections.

    A leg is one worker stream with the pool claim behind it.  The steps are the sections under the stream's mutex plus
    what goroutines do between them: a frame in flight, a warm-up call, a pending discard, a pending message on a leg's
    one-slot channel.  They may interleave in any order. */
module StreamSwitch {
  import opened Basics
  import opened WorkerPool

  datatype Outcome = Promoted | WarmFailed | Interrupted | Closed

  /** The warm-up goroutine of a leg; `busy` in the source is anything but Resting. */
  datatype Warm = Resting | Calling | Finishing

  /** Where the SwitchTo call that brought the leg is: before its first section, past it on an idle stream, in its select
      loop, blocked on the result after its context ended, or returned. */
  datatype Phase = Fresh | IdleReady | Awaiting | Draining | Over

  datatype Leg = Leg(
    client: Client, claim: nat, phase: Phase,
    warm: Warm, replies: nat, warmed: nat, ready: bool, idleSeen: bool,
    discardDue: nat, discarded: nat,
    sendDue: seq<Outcome>, inbox: seq<Outcome>, sent: nat,
    open: bool)

  /** How far a frame has come: it captured the legs, it has tried to start a warm-up, it has sent itself to the current leg. */
  datatype Stage = Captured | Tried | Through

  /** The frame holding processMu, with the legs it captured. */
  datatype Frame = Frame(current: nat, candidate: Option<nat>, stage: Stage)

  datatype Stream = Stream(
    legs: map<nat, Leg>, current: nat, candidate: Option<nat>, released: bool,
    lastProcess: Option<int>, frame: Option<Frame>)

  const WARM_FRAMES := 3
  const IDLE_AFTER := 2000

  function NewLeg(client: Client, claim: nat, phase: Phase): Leg {
    Leg(client, claim, phase, Resting, 0, 0, false, false, 0, 0, [], [], 0, false)
  }

  function Opened(client: Client, claim: nat): Stream {
    Stream(map[0 := NewLeg(client, claim, Over)], 0, None, false, None, None)
  }

  predicate Idle(s: Stream, now: int) {
    s.lastProcess.None? || now - s.lastProcess.value > IDLE_AFTER
  }

  // ---------- The critical sections ----------

  function Discarded(leg: Leg): Leg { leg.(discarded := leg.discarded + 1, open := false) }
  function Doomed(leg: Leg): Leg { leg.(discardDue := leg.discardDue + 1) }
  function Sent(leg: Leg, o: Outcome): Leg { leg.(inbox := leg.inbox + [o], sent := leg.sent + 1) }
  function Owed(leg: Leg, o: Outcome): Leg { leg.(sendDue := leg.sendDue + [o]) }

  /** The candidate becomes current, the previous leg is discarded on the spot, and the waiting call is told. */
  function Promote(s: Stream, l: nat): Stream
    requires s.current in s.legs && l in s.legs && l != s.current
  {
    s.(legs := s.legs[s.current := Discarded(s.legs[s.current])][l := Sent(s.legs[l], Promoted)],
       current := l, candidate := None)
  }

  /** Drop the candidate: its discard and its message are due, in any order with everything else. */
  function Drop(s: Stream, l: nat, o: Outcome): Stream
    requires l in s.legs
  {
    s.(legs := s.legs[l := Owed(Doomed(s.legs[l]), o)], candidate := None)
  }

  function Switchable(s: Stream, client: Client): bool
    requires s.current in s.legs
  {
    !s.released && s.candidate.None? && s.legs[s.current].client != client
  }

  datatype Event =
    | Begin(client: Client, claim: nat, leg: nat)
    | Enter(leg: nat, now: int)
    | IdleSwitch(leg: nat)
    | GiveUp(leg: nat)
    | IdleCheck(leg: nat, now: int)
    | Receive(leg: nat)
    | FrameBegin(now: int)
    | FrameWarm
    | FrameCall
    | FrameEnd
    | WarmReply(leg: nat, valid: bool)
    | WarmExit(leg: nat)
    | RunDiscard(leg: nat)
    | RunSend(leg: nat)
    | Close
    | Release

  ghost predicate Enabled(s: Stream, e: Event) {
    match e
    case Begin(_, _, l) => l !in s.legs
    case Enter(l, _) => l in s.legs && s.legs[l].phase == Fresh
    case IdleSwitch(l) => l in s.legs && s.legs[l].phase == IdleReady && s.frame.None?
    case GiveUp(l) => l in s.legs && s.legs[l].phase == Awaiting
    case IdleCheck(l, _) => l in s.legs && s.legs[l].phase == Awaiting && s.frame.None?
    case Receive(l) => l in s.legs && (s.legs[l].phase == Awaiting || s.legs[l].phase == Draining) && s.legs[l].inbox != []
    case FrameBegin(_) => s.frame.None?
    case FrameWarm => s.frame.Some? && s.frame.value.stage == Captured
    case FrameCall => s.frame.Some? && s.frame.value.stage == Tried
    case FrameEnd => s.frame.Some? && s.frame.value.stage == Through
    case WarmReply(l, _) => l in s.legs && s.legs[l].warm == Calling
    case WarmExit(l) => l in s.legs && s.legs[l].warm == Finishing
    case RunDiscard(l) => l in s.legs && s.legs[l].discardDue > 0
    case RunSend(l) => l in s.legs && s.legs[l].sendDue != [] && s.legs[l].inbox == []
    case Close => true
    case Release => true
  }

  function Entered(s: Stream, l: nat, now: int): Stream
    requires s.current in s.legs && l in s.legs
  {
    var leg := s.legs[l];
    if !Switchable(s, leg.client) then s.(legs := s.legs[l := Doomed(leg).(phase := Over)])
    else if Idle(s, now) then s.(legs := s.legs[l := leg.(phase := IdleReady, idleSeen := true)])
    else s.(legs := s.legs[l := leg.(phase := Awaiting)], candidate := Some(l))
  }

  function IdleSwitched(s: Stream, l: nat): Stream
    requires s.current in s.legs && l in s.legs && l != s.current
  {
    var leg := s.legs[l].(phase := Over);
    if !Switchable(s, leg.client) then s.(legs := s.legs[l := Discarded(leg)])
    else
      var s' := Promote(s.(legs := s.legs[l := leg]), l);
      s'.(legs := s'.legs[l := s'.legs[l].(inbox := [])])
  }

  function GaveUp(s: Stream, l: nat): Stream
    requires l in s.legs
  {
    if s.candidate == Some(l) && !s.legs[l].ready
    then s.(legs := s.legs[l := Doomed(s.legs[l]).(phase := Over)], candidate := None)
    else s.(legs := s.legs[l := s.legs[l].(phase := Draining)])
  }

  function IdleChecked(s: Stream, l: nat, now: int): Stream
    requires s.current in s.legs && l in s.legs
  {
    if s.candidate == Some(l) && l != s.current && s.legs[l].warm == Resting && Idle(s, now)
    then Promote(s.(legs := s.legs[l := s.legs[l].(idleSeen := true)]), l)
    else s
  }

  function FrameBegun(s: Stream, now: int): Stream
    requires s.current in s.legs
  {
    if s.released then s
    else
      var s1 := s.(lastProcess := Some(now));
      var s2 := if s.candidate.Some? && s.candidate.value in s.legs && s.candidate.value != s.current && s.legs[s.candidate.value].ready
                then Promote(s1, s.candidate.value) else s1;
      s2.(frame := Some(Frame(s2.current, s2.candidate, Captured)))
  }

  function FrameWarmed(s: Stream): Stream
    requires s.frame.Some?
  {
    var c := s.frame.value.candidate;
    var s1 := s.(frame := Some(s.frame.value.(stage := Tried)));
    if c.Some? && c.value in s.legs && s.legs[c.value].warm == Resting
    then s1.(legs := s.legs[c.value := s.legs[c.value].(warm := Calling)])
    else s1
  }

  /** The frame's call to the current leg's stream reopens that stream if it was closed. */
  function FrameCalled(s: Stream): Stream
    requires s.frame.Some?
  {
    var l := s.frame.value.current;
    var s1 := s.(frame := Some(s.frame.value.(stage := Through)));
    if l in s.legs then s1.(legs := s.legs[l := s.legs[l].(open := true)]) else s1
  }

  function WarmReplied(s: Stream, l: nat, valid: bool): Stream
    requires l in s.legs
  {
    var leg := s.legs[l].(warm := Finishing, open := true);
    if valid then
      var leg' := leg.(replies := leg.replies + 1);
      if s.candidate != Some(l) then s.(legs := s.legs[l := leg'])
      else s.(legs := s.legs[l := leg'.(warmed := leg.warmed + 1, ready := leg.ready || leg.warmed + 1 >= WARM_FRAMES)])
    else if s.candidate != Some(l) then s.(legs := s.legs[l := leg])
    else Drop(s.(legs := s.legs[l := leg]), l, WarmFailed)
  }

  function SentOff(s: Stream, l: nat): Stream
    requires l in s.legs && s.legs[l].sendDue != []
  {
    var leg := s.legs[l];
    s.(legs := s.legs[l := Sent(leg, leg.sendDue[0]).(sendDue := leg.sendDue[1..])])
  }

  function ClosedUp(s: Stream): Stream
    requires s.current in s.legs
  {
    var s1 := s.(legs := s.legs[s.current := s.legs[s.current].(open := false)]);
    if s.candidate.Some? && s.candidate.value in s.legs then Drop(s1, s.candidate.value, Interrupted) else s1
  }

  function ReleasedAll(s: Stream): Stream
    requires s.current in s.legs
  {
    if s.released then s
    else
      var s1 := s.(released := true, legs := s.legs[s.current := Doomed(s.legs[s.current])]);
      if s.candidate.Some? && s.candidate.value in s1.legs then Drop(s1, s.candidate.value, Closed) else s1
  }

  ghost function Step(s: Stream, e: Event): Stream
    requires Inv(s) && Enabled(s, e)
  {
    match e
    case Begin(client, claim, l) => s.(legs := s.legs[l := NewLeg(client, claim, Fresh)])
    case Enter(l, now) => Entered(s, l, now)
    case IdleSwitch(l) => LegStanding(s, l); IdleSwitched(s, l)
    case GiveUp(l) => GaveUp(s, l)
    case IdleCheck(l, now) => IdleChecked(s, l, now)
    case Receive(l) => s.(legs := s.legs[l := s.legs[l].(phase := Over, inbox := [])])
    case FrameBegin(now) => FrameBegun(s, now)
    case FrameWarm => FrameWarmed(s)
    case FrameCall => FrameCalled(s)
    case FrameEnd => s.(frame := None)
    case WarmReply(l, valid) => WarmReplied(s, l, valid)
    case WarmExit(l) => s.(legs := s.legs[l := s.legs[l].(warm := Resting)])
    case RunDiscard(l) => s.(legs := s.legs[l := Discarded(s.legs[l]).(discardDue := s.legs[l].discardDue - 1)])
    case RunSend(l) => SentOff(s, l)
    case Close => ClosedUp(s)
    case Release => ReleasedAll(s)
  }

  // ---------- Who is responsible for a leg ----------

  function One(b: bool): nat { if b then 1 else 0 }

  function Held(leg: Leg): bool { leg.phase == Fresh || leg.phase == IdleReady }

  /** The holders of an undiscarded leg: the stream as current, the stream as candidate, or the call that brought it. */
  function Custody(s: Stream, l: nat): nat
    requires l in s.legs
  {
    One(!s.released && s.current == l) + One(s.candidate == Some(l)) + One(Held(s.legs[l]))
  }

  /** Everything the protocol keeps about one leg. */
  ghost predicate LegInv(s: Stream, l: nat)
    requires l in s.legs
  {
    var leg := s.legs[l];
    // One holder, or one discard due, or one discard done: never none, never two.
    && leg.discarded + leg.discardDue + Custody(s, l) == 1
    // One message at most over the leg's whole life, so a send never finds the one-slot channel full.
    && |leg.sendDue| + leg.sent <= 1
    && |leg.inbox| <= leg.sent
    && (Held(leg) || s.candidate == Some(l) ==> leg.sent == 0 && leg.sendDue == [])
    // A waiting call whose leg is no longer the candidate has its result sent or due.
    && (leg.phase == Awaiting || leg.phase == Draining ==>
          s.candidate == Some(l) || |leg.sendDue| + |leg.inbox| == 1)
    && (s.candidate == Some(l) ==> leg.phase == Awaiting || leg.phase == Draining)
    && (s.candidate == Some(l) && leg.phase == Draining ==> leg.ready)
    && (Held(leg) ==> s.current != l)
    && (leg.phase == IdleReady ==> leg.idleSeen)
    // Readiness and promotion are earned.
    && leg.warmed <= leg.replies
    && (leg.ready <==> leg.warmed >= WARM_FRAMES)
    && (s.current == l && l != 0 ==> leg.warmed >= WARM_FRAMES || leg.idleSeen)
  }

  ghost predicate Inv(s: Stream) {
    && s.current in s.legs
    && (s.candidate.Some? ==> s.candidate.value in s.legs && s.candidate.value != s.current)
    && (s.released ==> s.candidate.None?)
    && (forall l :: l in s.legs ==> LegInv(s, l))
  }

  lemma LegStanding(s: Stream, l: nat)
    requires Inv(s) && l in s.legs && Held(s.legs[l])
    ensures l != s.current
  {
    assert LegInv(s, l);
  }

  lemma StartInv(client: Client, claim: nat)
    ensures Inv(Opened(client, claim))
  {
  }

  /** The two legs a promotion touches, and all others. */
  lemma PromoteKeeps(s: Stream, l: nat)
    requires Inv(s) && !s.released && s.candidate == Some(l)
    requires s.legs[l].warmed >= WARM_FRAMES || s.legs[l].idleSeen
    ensures Inv(Promote(s, l))
  {
    var s' := Promote(s, l);
    assert LegInv(s, s.current) && LegInv(s, l);
    forall m | m in s'.legs
      ensures LegInv(s', m)
    {
      assert LegInv(s, m);
    }
  }

  lemma DropKeeps(s: Stream, l: nat, o: Outcome)
    requires Inv(s) && s.candidate == Some(l)
    ensures Inv(Drop(s, l, o))
  {
    var s' := Drop(s, l, o);
    forall m | m in s'.legs
      ensures LegInv(s', m)
    {
      assert LegInv(s, m);
    }
  }

  /** Changing one leg in a way that its own invariant survives. */
  lemma LocalKeeps(s: Stream, l: nat, leg: Leg)
    requires Inv(s) && l in s.legs
    requires LegInv(s.(legs := s.legs[l := leg]), l)
    ensures Inv(s.(legs := s.legs[l := leg]))
  {
    var s' := s.(legs := s.legs[l := leg]);
    forall m | m in s'.legs
      ensures LegInv(s', m)
    {
      if m != l {
        assert LegInv(s, m);
      }
    }
  }

  /** A leg's invariant reads only the leg and whether it is current or candidate. */
  lemma LegFrame(s: Stream, s': Stream, l: nat)
    requires l in s.legs && l in s'.legs && LegInv(s, l) && s'.legs[l] == s.legs[l] && s'.released == s.released
    requires (s'.current == l) == (s.current == l) && (s'.candidate == Some(l)) == (s.candidate == Some(l))
    ensures LegInv(s', l)
  {
  }

  lemma EnterLeg(s: Stream, l: nat, now: int)
    requires Inv(s) && Enabled(s, Enter(l, now))
    ensures l in Entered(s, l, now).legs && LegInv(Entered(s, l, now), l)
  {
    assert LegInv(s, l);
  }

  lemma EnterKeeps(s: Stream, l: nat, now: int)
    requires Inv(s) && Enabled(s, Enter(l, now))
    ensures Inv(Entered(s, l, now))
  {
    var s' := Entered(s, l, now);
    EnterLeg(s, l, now);
    LegStanding(s, l);
    hide LegInv;
    forall m | m in s'.legs
      ensures LegInv(s', m)
    {
      if m != l {
        LegFrame(s, s', m);
      }
    }
  }

  lemma IdleSwitchKeeps(s: Stream, l: nat)
    requires Inv(s) && Enabled(s, IdleSwitch(l)) && l != s.current
    ensures Inv(IdleSwitched(s, l))
  {
    assert LegInv(s, l) && LegInv(s, s.current);
    if Switchable(s, s.legs[l].client) {
      var s' := IdleSwitched(s, l);
      assert s'.candidate.None? && s'.current == l && s'.released == s.released;
      assert s'.legs[l] == Sent(s.legs[l].(phase := Over), Promoted).(inbox := []);
      assert s'.legs[s.current] == Discarded(s.legs[s.current]);
      forall m | m in s'.legs
        ensures LegInv(s', m)
      {
        assert LegInv(s, m);
      }
    } else {
      LocalKeeps(s, l, Discarded(s.legs[l].(phase := Over)));
    }
  }

  lemma GiveUpKeeps(s: Stream, l: nat)
    requires Inv(s) && Enabled(s, GiveUp(l))
    ensures Inv(GaveUp(s, l))
  {
    var s' := GaveUp(s, l);
    forall m | m in s'.legs
      ensures LegInv(s', m)
    {
      assert LegInv(s, m);
    }
  }

  lemma IdleCheckKeeps(s: Stream, l: nat, now: int)
    requires Inv(s) && Enabled(s, IdleCheck(l, now))
    ensures Inv(IdleChecked(s, l, now))
  {
    assert LegInv(s, l);
    if IdleChecked(s, l, now) != s {
      LocalKeeps(s, l, s.legs[l].(idleSeen := true));
      PromoteKeeps(s.(legs := s.legs[l := s.legs[l].(idleSeen := true)]), l);
    }
  }

  /** Fields no leg's invariant mentions. */
  lemma ClockKeeps(s: Stream, last: Option<int>, frame: Option<Frame>)
    requires Inv(s)
    ensures Inv(s.(lastProcess := last)) && Inv(s.(frame := frame))
  {
    assert forall l :: l in s.legs ==> LegInv(s, l);
    assert forall l :: l in s.legs ==> LegInv(s.(lastProcess := last), l);
    assert forall l :: l in s.legs ==> LegInv(s.(frame := frame), l);
  }

  lemma FrameBeginKeeps(s: Stream, now: int)
    requires Inv(s)
    ensures Inv(FrameBegun(s, now))
  {
    hide LegInv;
    if !s.released {
      var s1 := s.(lastProcess := Some(now));
      ClockKeeps(s, Some(now), None);
      var s2 := s1;
      if s.candidate.Some? && s.legs[s.candidate.value].ready {
        ReadyIsEarned(s1, s.candidate.value);
        PromoteKeeps(s1, s.candidate.value);
        s2 := Promote(s1, s.candidate.value);
      }
      ClockKeeps(s2, None, Some(Frame(s2.current, s2.candidate, Captured)));
    }
  }

  lemma ReadyIsEarned(s: Stream, l: nat)
    requires Inv(s) && l in s.legs && s.legs[l].ready
    ensures s.legs[l].warmed >= WARM_FRAMES
  {
    assert LegInv(s, l);
  }

  lemma WarmReplyKeeps(s: Stream, l: nat, valid: bool)
    requires Inv(s) && Enabled(s, WarmReply(l, valid))
    ensures Inv(WarmReplied(s, l, valid))
  {
    assert LegInv(s, l);
    var leg := s.legs[l].(warm := Finishing, open := true);
    if valid {
      LocalKeeps(s, l, WarmReplied(s, l, valid).legs[l]);
    } else {
      LocalKeeps(s, l, leg);
      if s.candidate == Some(l) {
        DropKeeps(s.(legs := s.legs[l := leg]), l, WarmFailed);
      }
    }
  }

  lemma CloseKeeps(s: Stream)
    requires Inv(s)
    ensures Inv(ClosedUp(s))
  {
    assert LegInv(s, s.current);
    LocalKeeps(s, s.current, s.legs[s.current].(open := false));
    if s.candidate.Some? {
      DropKeeps(s.(legs := s.legs[s.current := s.legs[s.current].(open := false)]), s.candidate.value, Interrupted);
    }
  }

  lemma ReleaseKeeps(s: Stream)
    requires Inv(s)
    ensures Inv(ReleasedAll(s))
  {
    var s' := ReleasedAll(s);
    assert LegInv(s, s.current);
    forall m | m in s'.legs
      ensures LegInv(s', m)
    {
      assert LegInv(s, m);
    }
  }

  lemma TasksKeep(s: Stream, e: Event)
    requires Inv(s) && Enabled(s, e)
    requires e.Receive? || e.WarmExit? || e.RunDiscard? || e.RunSend?
    ensures Inv(Step(s, e))
  {
    var s' := Step(s, e);
    assert LegInv(s, e.leg);
    assert s' == s.(legs := s.legs[e.leg := s'.legs[e.leg]]);
    LocalKeeps(s, e.leg, s'.legs[e.leg]);
  }

  lemma FrameTasksKeep(s: Stream, e: Event)
    requires Inv(s) && Enabled(s, e) && (e.FrameWarm? || e.FrameCall?)
    ensures Inv(Step(s, e))
  {
    var f := s.frame.value;
    var s1 := s.(frame := Some(f.(stage := if e.FrameWarm? then Tried else Through)));
    ClockKeeps(s, None, s1.frame);
    var touched := if e.FrameWarm? then f.candidate else Some(f.current);
    if touched.Some? && touched.value in s.legs {
      var l := touched.value;
      assert LegInv(s1, l);
      LocalKeeps(s1, l, if e.FrameWarm? then s.legs[l].(warm := Calling) else s.legs[l].(open := true));
    }
    hide LegInv;
  }

  lemma BeginKeeps(s: Stream, client: Client, claim: nat, l: nat)
    requires Inv(s) && l !in s.legs
    ensures Inv(s.(legs := s.legs[l := NewLeg(client, claim, Fresh)]))
  {
    var s' := s.(legs := s.legs[l := NewLeg(client, claim, Fresh)]);
    forall m | m in s'.legs
      ensures LegInv(s', m)
    {
      if m != l {
        assert LegInv(s, m);
      }
    }
  }

  lemma StepKeepsInv(s: Stream, e: Event)
    requires Inv(s) && Enabled(s, e)
    ensures Inv(Step(s, e))
  {
    hide Inv, LegInv;
    match e
    case Begin(client, claim, l) => BeginKeeps(s, client, claim, l);
    case Enter(l, now) => EnterKeeps(s, l, now);
    case IdleSwitch(l) => LegStanding(s, l); IdleSwitchKeeps(s, l);
    case GiveUp(l) => GiveUpKeeps(s, l);
    case IdleCheck(l, now) => IdleCheckKeeps(s, l, now);
    case Receive(_) => TasksKeep(s, e);
    case FrameBegin(now) => FrameBeginKeeps(s, now);
    case FrameWarm => FrameTasksKeep(s, e);
    case FrameCall => FrameTasksKeep(s, e);
    case FrameEnd => ClockKeeps(s, None, None);
    case WarmReply(l, valid) => WarmReplyKeeps(s, l, valid);
    case WarmExit(_) => TasksKeep(s, e);
    case RunDiscard(_) => TasksKeep(s, e);
    case RunSend(_) => TasksKeep(s, e);
    case Close => CloseKeeps(s);
    case Release => ReleaseKeeps(s);
  }
}
