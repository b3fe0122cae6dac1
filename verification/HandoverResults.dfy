/** What a SwitchTo call is told, and what each step does to the stream as its callers see it. */
module HandoverResults {
  import opened Basics
  import WorkerPool
  import opened StreamSwitch
  import opened Handover

  // ---------- What each step does ----------

  /** Frames have been missing for more than two seconds. */
  predicate Quiet(s: Stream, now: int) { s.lastProcess.Some? ==> now - s.lastProcess.value > 2000 }

  /** No switch after Release, beside another one, or to the worker in use. */
  predicate MaySwitch(s: Stream, l: nat)
    requires s.current in s.legs && l in s.legs
  {
    !s.released && s.candidate == None && s.legs[s.current].client != s.legs[l].client
  }

  /** The candidate is promoted by a frame after its third valid reply, or by the idle check when it rests on a quiet stream. */
  ghost predicate PromotesCandidate(s: Stream, e: Event) {
    && s.candidate.Some? && s.candidate.value in s.legs
    && match e
       case FrameBegin(_) => s.legs[s.candidate.value].warmed >= 3
       case IdleCheck(l, now) => s.candidate == Some(l) && s.legs[l].warm == Resting && Quiet(s, now)
       case _ => false
  }

  /** The candidate is dropped by an invalid reply of its own, by its call giving up before the third valid reply, by Close and
      by Release. */
  ghost predicate DropsCandidate(s: Stream, e: Event) {
    && s.candidate.Some? && s.candidate.value in s.legs
    && match e
       case WarmReply(l, valid) => s.candidate == Some(l) && !valid
       case GiveUp(l) => s.candidate == Some(l) && s.legs[l].warmed < 3
       case Close => true
       case Release => true
       case _ => false
  }

  /** The current leg changes by a promotion of the candidate, or by an idle switch that is still allowed. */
  lemma CurrentMoves(s: Stream, e: Event)
    requires Inv(s) && Enabled(s, e)
    ensures Step(s, e).current ==
            if PromotesCandidate(s, e) then s.candidate.value
            else if e.IdleSwitch? && MaySwitch(s, e.leg) then e.leg
            else s.current
    ensures Step(s, e).released == (s.released || e.Release?)
    ensures Step(s, e).lastProcess == if e.FrameBegin? && !s.released then Some(e.now) else s.lastProcess
  {
    CandidateFacts(s, e);
    hide LegInv;
    if e.IdleSwitch? {
      LegStanding(s, e.leg);
    }
  }

  lemma CandidateFacts(s: Stream, e: Event)
    requires Inv(s) && Enabled(s, e)
    ensures s.candidate.Some? ==>
              && s.candidate.value in s.legs && s.candidate.value != s.current && !s.released
              && (s.legs[s.candidate.value].ready <==> s.legs[s.candidate.value].warmed >= 3)
  {
    if s.candidate.Some? {
      assert LegInv(s, s.candidate.value);
    }
  }

  lemma CandidateMoves(s: Stream, e: Event)
    requires Inv(s) && Enabled(s, e)
    ensures Step(s, e).candidate ==
            if PromotesCandidate(s, e) || DropsCandidate(s, e) then None
            else if e.Enter? && MaySwitch(s, e.leg) && !Quiet(s, e.now) then Some(e.leg)
            else s.candidate
  {
    CandidateFacts(s, e);
    hide LegInv;
    if e.IdleSwitch? {
      LegStanding(s, e.leg);
    }
  }

  /** Valid replies are counted, and those of the candidate count towards its promotion. */
  lemma RepliesCount(s: Stream, e: Event, m: nat)
    requires Inv(s) && Enabled(s, e) && m in s.legs
    ensures m in Step(s, e).legs
    ensures Step(s, e).legs[m].replies == s.legs[m].replies + One(e == WarmReply(m, true))
    ensures Step(s, e).legs[m].warmed == s.legs[m].warmed + One(e == WarmReply(m, true) && s.candidate == Some(m))
  {
    hide LegInv, Idle;
    match e
    case IdleSwitch(l) => LegStanding(s, l);
    case _ =>
  }

  /** When a leg's stream is open: opened by a call to its worker, closed by Close while current and by its discard. */
  lemma OpenMoves(s: Stream, e: Event, m: nat)
    requires Inv(s) && Enabled(s, e) && m in s.legs
    ensures m in Step(s, e).legs
    ensures Step(s, e).legs[m].open ==
            if (e.FrameCall? && s.frame.value.current == m) || (e.WarmReply? && e.leg == m) then true
            else if (e.Close? && s.current == m) || DiscardOf(s, e) == Some(m) then false
            else s.legs[m].open
  {
    hide LegInv, Idle;
    match e
    case IdleSwitch(l) => LegStanding(s, l);
    case _ =>
  }

  /** Where a frame goes: to the leg that is current once a promotion has happened, with the candidate that is left then; after
      Release it is refused. */
  lemma FrameGoes(s: Stream, now: int)
    requires Inv(s) && Enabled(s, FrameBegin(now))
    ensures var s' := Step(s, FrameBegin(now));
            s'.frame == if s.released then None else Some(Frame(s'.current, s'.candidate, Captured))
  {
    hide LegInv, Idle;
  }

  /** A captured candidate is warmed up unless a warm-up of it is already under way. */
  lemma WarmUpStarts(s: Stream, m: nat)
    requires Inv(s) && Enabled(s, FrameWarm) && m in s.legs
    ensures Step(s, FrameWarm).legs[m].warm ==
            if s.frame.value.candidate == Some(m) && s.legs[m].warm == Resting then Calling else s.legs[m].warm
    ensures Step(s, FrameWarm).frame == Some(s.frame.value.(stage := Tried))
  {
    hide LegInv, Idle;
  }

  /** How a SwitchTo call goes on: it returns at once when it may not switch, goes for the idle switch on a quiet stream, and
      otherwise waits as the candidate. */
  lemma EntryGoesOn(s: Stream, l: nat, now: int)
    requires Inv(s) && Enabled(s, Enter(l, now))
    ensures Step(s, Enter(l, now)).legs[l].phase ==
            if !MaySwitch(s, l) then Over else if Quiet(s, now) then IdleReady else Awaiting
    ensures Step(s, Enter(l, now)).legs[l].discardDue == s.legs[l].discardDue + One(!MaySwitch(s, l))
  {
    hide LegInv;
  }

  /** A call that gives up returns at once unless its leg is ready or no longer the candidate; then its result is on its way. */
  lemma GivingUpGoesOn(s: Stream, l: nat)
    requires Inv(s) && Enabled(s, GiveUp(l))
    ensures Step(s, GiveUp(l)).legs[l].phase == if s.candidate == Some(l) && s.legs[l].warmed < 3 then Over else Draining
  {
    assert LegInv(s, l);
    hide LegInv;
  }

  /** A frame captures, tries to warm up, is sent and ends, in that order; one frame at a time. */
  lemma FrameLife(s: Stream, now: int)
    requires Inv(s)
    ensures Enabled(s, FrameBegin(now)) <==> s.frame.None?
    ensures Enabled(s, FrameWarm) <==> s.frame.Some? && s.frame.value.stage == Captured
    ensures Enabled(s, FrameCall) <==> s.frame.Some? && s.frame.value.stage == Tried
    ensures Enabled(s, FrameEnd) <==> s.frame.Some? && s.frame.value.stage == Through
    ensures Enabled(s, FrameWarm) ==> Step(s, FrameWarm).frame == Some(s.frame.value.(stage := Tried))
    ensures Enabled(s, FrameCall) ==> Step(s, FrameCall).frame == Some(s.frame.value.(stage := Through))
    ensures Enabled(s, FrameEnd) ==> Step(s, FrameEnd).frame == None
  {
    hide LegInv;
  }

  /** A call brings a new leg to the stream: at rest, without replies, not open, owing nothing. */
  lemma BeginAdds(s: Stream, client: WorkerPool.Client, claim: nat, l: nat)
    requires Inv(s)
    ensures Enabled(s, Begin(client, claim, l)) <==> l !in s.legs
    ensures l !in s.legs ==>
              Step(s, Begin(client, claim, l)) ==
              s.(legs := s.legs[l := Leg(client, claim, Fresh, Resting, 0, 0, false, false, 0, 0, [], [], 0, false)])
  {
    hide LegInv;
  }

  lemma QuietAtEntry(s: Stream, l: nat, now: int)
    requires Inv(s) && Enabled(s, Enter(l, now))
    ensures Entered(s, l, now).legs[l].idleSeen == (s.legs[l].idleSeen || (MaySwitch(s, l) && Quiet(s, now)))
    ensures forall m :: m in s.legs && m != l ==> m in Entered(s, l, now).legs && Entered(s, l, now).legs[m] == s.legs[m]
  {
    hide LegInv;
  }

  lemma QuietAtCheck(s: Stream, l: nat, now: int, m: nat)
    requires Inv(s) && Enabled(s, IdleCheck(l, now)) && m in s.legs
    ensures m in IdleChecked(s, l, now).legs
    ensures IdleChecked(s, l, now).legs[m].idleSeen ==
            (s.legs[m].idleSeen || (l == m && s.candidate == Some(m) && s.legs[m].warm == Resting && Quiet(s, now)))
  {
    CandidateFacts(s, IdleCheck(l, now));
    hide LegInv;
  }

  lemma NotQuietElsewhere(s: Stream, e: Event, m: nat)
    requires Inv(s) && Enabled(s, e) && m in s.legs && !e.Enter? && !e.IdleCheck?
    ensures m in Step(s, e).legs && Step(s, e).legs[m].idleSeen == s.legs[m].idleSeen
  {
    hide LegInv, Idle;
    if e.IdleSwitch? {
      LegStanding(s, e.leg);
    }
  }

  /** The stream was seen quiet for a leg: at the entry of its switch, or by the idle check that promotes it. */
  lemma QuietSeen(s: Stream, e: Event, m: nat)
    requires Inv(s) && Enabled(s, e) && m in s.legs
    ensures m in Step(s, e).legs
    ensures Step(s, e).legs[m].idleSeen ==
            (|| s.legs[m].idleSeen
             || (e.Enter? && e.leg == m && MaySwitch(s, m) && Quiet(s, e.now))
             || (e.IdleCheck? && e.leg == m && s.candidate == Some(m) && s.legs[m].warm == Resting && Quiet(s, e.now)))
  {
    if e.Enter? {
      QuietAtEntry(s, e.leg, e.now);
    } else if e.IdleCheck? {
      QuietAtCheck(s, e.leg, e.now, m);
    } else {
      NotQuietElsewhere(s, e, m);
    }
    hide LegInv, Inv, Entered, IdleChecked;
  }

  /** Where a call must stand for each of its steps; switches between frames need the stream between two frames. */
  lemma CallPhases(s: Stream, l: nat, now: int, valid: bool)
    requires l in s.legs
    ensures Enabled(s, Enter(l, now)) <==> s.legs[l].phase == Fresh
    ensures Enabled(s, IdleSwitch(l)) <==> s.legs[l].phase == IdleReady && s.frame.None?
    ensures Enabled(s, GiveUp(l)) <==> s.legs[l].phase == Awaiting
    ensures Enabled(s, IdleCheck(l, now)) <==> s.legs[l].phase == Awaiting && s.frame.None?
    ensures Enabled(s, WarmReply(l, valid)) <==> s.legs[l].warm == Calling
    ensures Enabled(s, Close) && Enabled(s, Release)
  {
  }

  /** The call takes its result and is over; the message is taken. */
  lemma CallEnds(s: Stream, l: nat)
    requires Inv(s) && l in s.legs
    ensures Enabled(s, Receive(l)) <==> s.legs[l].phase in {Awaiting, Draining} && |s.legs[l].inbox| > 0
    ensures Enabled(s, Receive(l)) ==> Step(s, Receive(l)).legs[l] == s.legs[l].(phase := Over, inbox := [])
  {
    hide LegInv;
  }

  /** What is due is done once: a discard, and the sending of a message to the empty channel; a warm-up that has its reply rests. */
  lemma DueIsDone(s: Stream, l: nat)
    requires Inv(s) && l in s.legs
    ensures Enabled(s, RunDiscard(l)) <==> s.legs[l].discardDue > 0
    ensures Enabled(s, RunDiscard(l)) ==> Step(s, RunDiscard(l)).legs[l].discardDue == s.legs[l].discardDue - 1
    ensures Enabled(s, RunSend(l)) <==> s.legs[l].sendDue != [] && s.legs[l].inbox == []
    ensures Enabled(s, RunSend(l)) ==>
              Step(s, RunSend(l)).legs[l].inbox == [s.legs[l].sendDue[0]] && Step(s, RunSend(l)).legs[l].sendDue == s.legs[l].sendDue[1..]
    ensures Enabled(s, WarmExit(l)) <==> s.legs[l].warm == Finishing
    ensures Enabled(s, WarmExit(l)) ==> Step(s, WarmExit(l)).legs[l].warm == Resting
  {
    hide LegInv;
  }

  // ---------- What a call is told ----------

  /** How a leg stopped being a candidate, as seen from the stream. */
  datatype Ending = ByPromotion | ByReply | ByClose | ByRelease | ByGivingUp

  ghost function EndOf(s: Stream, e: Event): Option<(nat, Ending)>
    requires Inv(s) && Enabled(s, e)
  {
    var s' := Step(s, e);
    if s'.current != s.current then Some((s'.current, ByPromotion))
    else if s.candidate.Some? && s'.candidate != s.candidate then
      Some((s.candidate.value, match e case WarmReply(_, _) => ByReply case Close => ByClose case Release => ByRelease case _ => ByGivingUp))
    else None
  }

  ghost function Noted(s: Stream, e: Event, seen: map<nat, Ending>): map<nat, Ending>
    requires Inv(s) && Enabled(s, e)
  {
    var end := EndOf(s, e);
    if end.Some? then seen[end.value.0 := end.value.1] else seen
  }

  ghost function Endings(s: Stream, run: seq<Event>, seen: map<nat, Ending>): map<nat, Ending>
    requires Inv(s) && StreamRuns(s, run)
    decreases |run|
  {
    if run == [] then seen
    else
      StepKeepsInv(s, run[0]);
      Endings(Step(s, run[0]), run[1..], Noted(s, run[0], seen))
  }

  predicate Tells(o: Outcome, end: Ending) {
    match end
    case ByPromotion => o == Promoted
    case ByReply => o == WarmFailed
    case ByClose => o == Interrupted
    case ByRelease => o == Closed
    case ByGivingUp => false
  }

  /** Every message, sent or due, tells how its leg ended; a leg still held or the candidate has not ended. */
  ghost predicate LegTold(s: Stream, seen: map<nat, Ending>, l: nat)
    requires l in s.legs
  {
    && (s.candidate == Some(l) || Held(s.legs[l]) ==> l !in seen)
    && (forall o :: o in s.legs[l].sendDue || o in s.legs[l].inbox ==> l in seen && Tells(o, seen[l]))
  }

  ghost predicate Told(s: Stream, seen: map<nat, Ending>) {
    && (forall l :: l in seen ==> l in s.legs)
    && (forall l :: l in s.legs ==> LegTold(s, seen, l))
  }

  /** A leg that ends was the candidate or the leg of an idle switch, and it has ended then. */
  lemma EndedLeg(s: Stream, e: Event)
    requires Inv(s) && Enabled(s, e) && EndOf(s, e).Some?
    ensures var l := EndOf(s, e).value.0;
            && l in s.legs && (s.candidate == Some(l) || Held(s.legs[l]))
            && l in Step(s, e).legs && Step(s, e).candidate != Some(l) && !Held(Step(s, e).legs[l])
  {
    CurrentMoves(s, e);
    CandidateMoves(s, e);
    StepKeepsInv(s, e);
    var l := EndOf(s, e).value.0;
    CandidateFacts(s, e);
    LegKeepsClaim(s, e, l);
    assert s.candidate.Some? ==> LegInv(s, s.candidate.value);
    hide LegInv, Idle;
  }

  lemma HeldBefore(s: Stream, e: Event, m: nat)
    requires Inv(s) && Enabled(s, e) && m in s.legs
    ensures m in Step(s, e).legs && (Held(Step(s, e).legs[m]) ==> Held(s.legs[m]))
  {
    hide LegInv, Idle;
    if e.IdleSwitch? {
      LegStanding(s, e.leg);
    }
  }

  /** A leg is held or the candidate only if it was before or is new. */
  lemma StillOpen(s: Stream, e: Event, m: nat)
    requires Inv(s) && Enabled(s, e) && m in Step(s, e).legs
    requires Step(s, e).candidate == Some(m) || Held(Step(s, e).legs[m])
    ensures m in s.legs ==> s.candidate == Some(m) || Held(s.legs[m])
  {
    hide Inv, Step;
    CandidateMoves(s, e);
    if m in s.legs {
      HeldBefore(s, e, m);
    }
  }

  predicate HasMail(s: Stream, m: nat, o: Outcome) {
    m in s.legs && (o in s.legs[m].sendDue || o in s.legs[m].inbox)
  }

  /** A drop owes the candidate one message, and nobody else any. */
  lemma DropOwes(s: Stream, l: nat, cause: Outcome, m: nat, o: Outcome)
    requires l in s.legs && HasMail(Drop(s, l, cause), m, o)
    ensures HasMail(s, m, o) || (m == l && o == cause)
  {
  }

  lemma ReplyMail(s: Stream, l: nat, valid: bool, m: nat, o: Outcome)
    requires Inv(s) && Enabled(s, WarmReply(l, valid)) && HasMail(WarmReplied(s, l, valid), m, o) && !HasMail(s, m, o)
    ensures s.candidate == Some(m) && m == l && o == WarmFailed && !valid
  {
    hide Inv;
    var leg := s.legs[l].(warm := Finishing, open := true);
    if !valid && s.candidate == Some(l) {
      DropOwes(s.(legs := s.legs[l := leg]), l, WarmFailed, m, o);
    }
  }

  lemma ShutMail(s: Stream, e: Event, m: nat, o: Outcome)
    requires Inv(s) && (e.Close? || e.Release?) && HasMail(Step(s, e), m, o) && !HasMail(s, m, o)
    ensures s.candidate == Some(m) && o == if e.Close? then Interrupted else Closed
  {
    hide LegInv;
    if s.candidate.Some? {
      var s1 := if e.Close? then s.(legs := s.legs[s.current := s.legs[s.current].(open := false)])
                else s.(released := true, legs := s.legs[s.current := Doomed(s.legs[s.current])]);
      DropOwes(s1, s.candidate.value, if e.Close? then Interrupted else Closed, m, o);
    }
  }

  /** Drops write the message of their cause. */
  lemma DropMail(s: Stream, e: Event, m: nat, o: Outcome)
    requires Inv(s) && Enabled(s, e) && (e.WarmReply? || e.Close? || e.Release?)
    requires HasMail(Step(s, e), m, o) && !HasMail(s, m, o)
    ensures EndOf(s, e).Some? && EndOf(s, e).value.0 == m && Tells(o, EndOf(s, e).value.1)
  {
    CurrentMoves(s, e);
    CandidateMoves(s, e);
    if e.WarmReply? {
      ReplyMail(s, e.leg, e.valid, m, o);
    } else {
      ShutMail(s, e, m, o);
    }
    CandidateFacts(s, e);
    hide Inv, Step, HasMail, WarmReplied;
  }

  /** Promotions write Promoted, to the leg that is current now. */
  lemma PromotionMail(s: Stream, e: Event, m: nat, o: Outcome)
    requires Inv(s) && Enabled(s, e) && (e.FrameBegin? || e.IdleCheck? || e.IdleSwitch?)
    requires HasMail(Step(s, e), m, o) && !HasMail(s, m, o)
    ensures EndOf(s, e) == Some((m, ByPromotion)) && o == Promoted
  {
    CandidateFacts(s, e);
    hide LegInv, Idle;
    if e.IdleSwitch? {
      LegStanding(s, e.leg);
    }
  }

  lemma NoMail(s: Stream, e: Event, m: nat, o: Outcome)
    requires Inv(s) && Enabled(s, e)
    requires !(e.WarmReply? || e.Close? || e.Release? || e.FrameBegin? || e.IdleCheck? || e.IdleSwitch?)
    ensures HasMail(Step(s, e), m, o) ==> HasMail(s, m, o)
  {
    hide LegInv, Idle;
  }

  /** A message that was not there before tells how the leg has just ended. */
  lemma NewMail(s: Stream, e: Event, m: nat, o: Outcome)
    requires Inv(s) && Enabled(s, e) && HasMail(Step(s, e), m, o)
    ensures HasMail(s, m, o) || (EndOf(s, e).Some? && EndOf(s, e).value.0 == m && Tells(o, EndOf(s, e).value.1))
  {
    hide Inv, Step, Enabled, HasMail, EndOf;
    if !HasMail(s, m, o) {
      if e.WarmReply? || e.Close? || e.Release? {
        DropMail(s, e, m, o);
      } else if e.FrameBegin? || e.IdleCheck? || e.IdleSwitch? {
        PromotionMail(s, e, m, o);
      } else {
        NoMail(s, e, m, o);
      }
    }
  }

  lemma StepTold(s: Stream, e: Event, seen: map<nat, Ending>, l: nat)
    requires Inv(s) && Enabled(s, e) && Told(s, seen) && l in Step(s, e).legs
    ensures LegTold(Step(s, e), Noted(s, e, seen), l)
  {
    hide Inv, Step, Enabled, EndOf, Tells;
    assert l in s.legs ==> LegTold(s, seen, l);
    if EndOf(s, e).Some? {
      EndedLeg(s, e);
    }
    if Step(s, e).candidate == Some(l) || Held(Step(s, e).legs[l]) {
      StillOpen(s, e, l);
    }
    forall o | o in Step(s, e).legs[l].sendDue || o in Step(s, e).legs[l].inbox
      ensures l in Noted(s, e, seen) && Tells(o, Noted(s, e, seen)[l])
    {
      NewMail(s, e, l, o);
    }
  }

  lemma StepKeepsTold(s: Stream, e: Event, seen: map<nat, Ending>)
    requires Inv(s) && Enabled(s, e) && Told(s, seen)
    ensures Told(Step(s, e), Noted(s, e, seen))
  {
    var s' := Step(s, e);
    forall l | l in s'.legs
      ensures LegTold(s', Noted(s, e, seen), l)
    {
      StepTold(s, e, seen, l);
    }
    forall l | l in Noted(s, e, seen)
      ensures l in s'.legs
    {
      if l in s.legs {
        LegKeepsClaim(s, e, l);
      }
      EndListed(s, e);
    }
  }

  lemma EndListed(s: Stream, e: Event)
    requires Inv(s) && Enabled(s, e)
    ensures EndOf(s, e).Some? ==> EndOf(s, e).value.0 in Step(s, e).legs
  {
    StepKeepsInv(s, e);
    if s.candidate.Some? {
      LegKeepsClaim(s, e, s.candidate.value);
    }
    hide LegInv;
  }

  lemma {:induction false} RunKeepsTold(s: Stream, run: seq<Event>, seen: map<nat, Ending>)
    requires Inv(s) && StreamRuns(s, run) && Told(s, seen)
    ensures Inv(StreamAfter(s, run)) && Told(StreamAfter(s, run), Endings(s, run, seen))
    decreases |run|
  {
    hide Inv, Step, Enabled, Told, Noted;
    if run != [] {
      StepKeepsInv(s, run[0]);
      StepKeepsTold(s, run[0], seen);
      RunKeepsTold(Step(s, run[0]), run[1..], Noted(s, run[0], seen));
    }
  }

  /** Main theorem, over every run from the opening of the stream: a waiting call receives one message, and it says Promoted if
      and only if its leg became current, WarmFailed if and only if a reply dropped it, Interrupted if and only if Close did,
      and Closed if and only if Release did. */
  lemma ResultTellsTheTruth(client: WorkerPool.Client, claim: nat, run: seq<Event>, l: nat)
    requires Inv(Opened(client, claim)) && StreamRuns(Opened(client, claim), run)
    requires Enabled(StreamAfter(Opened(client, claim), run), Receive(l))
    ensures var inbox := StreamAfter(Opened(client, claim), run).legs[l].inbox;
            var ended := Endings(Opened(client, claim), run, map[]);
            && |inbox| == 1 && l in ended
            && (inbox[0] == Promoted <==> ended[l] == ByPromotion)
            && (inbox[0] == WarmFailed <==> ended[l] == ByReply)
            && (inbox[0] == Interrupted <==> ended[l] == ByClose)
            && (inbox[0] == Closed <==> ended[l] == ByRelease)
  {
    var s0 := Opened(client, claim);
    StartInv(client, claim);
    assert Told(s0, map[]);
    RunKeepsTold(s0, run, map[]);
    var s := StreamAfter(s0, run);
    assert LegTold(s, Endings(s0, run, map[]), l) && LegInv(s, l);
    assert s.legs[l].inbox[0] in s.legs[l].inbox;
  }

  /** What the endings mean: only an invalid reply of its own drops a candidate through a reply. */
  lemma EndingsMean(s: Stream, e: Event)
    requires Inv(s) && Enabled(s, e) && EndOf(s, e).Some?
    ensures var (l, end) := EndOf(s, e).value;
            match end
            case ByPromotion => Step(s, e).current == l && (s.candidate == Some(l) || e == IdleSwitch(l))
            case ByReply => e == WarmReply(l, false) && s.candidate == Some(l)
            case ByClose => e == Close && s.candidate == Some(l)
            case ByRelease => e == Release && s.candidate == Some(l)
            case ByGivingUp => e == GiveUp(l) && s.candidate == Some(l)
  {
    CurrentMoves(s, e);
    CandidateMoves(s, e);
    hide Inv, Step, Enabled;
  }
}
