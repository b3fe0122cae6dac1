/** One session's stream and the worker pool together: what the handover guarantees over every interleaving of both. */
module Handover {
  import opened Totals
  import opened Basics
  import WorkerPool
  import opened StreamSwitch

  /** A due message never finds the one-slot channel full, so no sender ever blocks. */
  lemma SendNeverBlocks(s: Stream, l: nat)
    requires Inv(s) && l in s.legs && s.legs[l].sendDue != []
    ensures Enabled(s, RunSend(l))
    ensures s.candidate != Some(l) && |s.legs[l].sendDue| == 1 && s.legs[l].sent == 0
  {
    assert LegInv(s, l);
  }

  /** A call still waiting after its leg stopped being the candidate can always be completed. */
  lemma ResultAlwaysComes(s: Stream, l: nat)
    requires Inv(s) && l in s.legs
    requires s.legs[l].phase == Awaiting || s.legs[l].phase == Draining
    requires s.candidate != Some(l)
    ensures Enabled(s, Receive(l)) || Enabled(s, RunSend(l))
  {
    assert LegInv(s, l);
  }

  /** The leg whose discard a step performs, if any. */
  ghost function DiscardOf(s: Stream, e: Event): Option<nat>
    requires Inv(s) && Enabled(s, e)
  {
    match e
    case IdleSwitch(l) => if Switchable(s, s.legs[l].client) then Some(s.current) else Some(l)
    case IdleCheck(l, now) => if IdleChecked(s, l, now) != s then Some(s.current) else None
    case FrameBegin(_) =>
      if !s.released && s.candidate.Some? && s.legs[s.candidate.value].ready then Some(s.current) else None
    case RunDiscard(l) => Some(l)
    case _ => None
  }

  lemma LegKeepsClaim(s: Stream, e: Event, m: nat)
    requires Inv(s) && Enabled(s, e) && m in s.legs
    ensures m in Step(s, e).legs && Step(s, e).legs[m].claim == s.legs[m].claim && Step(s, e).legs[m].client == s.legs[m].client
  {
    hide LegInv, Idle;
    match e
    case IdleSwitch(l) => LegStanding(s, l);
    case _ =>
  }

  /** Discard counts move exactly as DiscardOf says, and a leg keeps its worker and its claim for life. */
  lemma DiscardsExactly(s: Stream, e: Event, m: nat)
    requires Inv(s) && Enabled(s, e) && m in s.legs
    ensures m in Step(s, e).legs
    ensures Step(s, e).legs[m].discarded == s.legs[m].discarded + One(DiscardOf(s, e) == Some(m))
    ensures Step(s, e).legs[m].claim == s.legs[m].claim && Step(s, e).legs[m].client == s.legs[m].client
  {
    hide LegInv, Idle;
    LegKeepsClaim(s, e, m);
    match e
    case IdleSwitch(l) => LegStanding(s, l);
    case IdleCheck(_, _) =>
    case FrameBegin(_) =>
    case WarmReply(_, _) =>
    case _ =>
  }

  /** A leg is discarded at most once, ever. */
  lemma DiscardedOnce(s: Stream, e: Event)
    requires Inv(s) && Enabled(s, e) && DiscardOf(s, e).Some?
    ensures DiscardOf(s, e).value in s.legs && s.legs[DiscardOf(s, e).value].discarded == 0
  {
    var m := DiscardOf(s, e).value;
    assert m in s.legs && LegInv(s, m);
    DiscardsExactly(s, e, m);
    StepKeepsInv(s, e);
    assert LegInv(Step(s, e), m);
  }

  /** A leg becomes current only with enough valid replies, or after its stream was seen idle. */
  lemma PromotionIsEarned(s: Stream, e: Event)
    requires Inv(s) && Enabled(s, e) && Step(s, e).current != s.current && Step(s, e).current != 0
    ensures var leg := Step(s, e).legs[Step(s, e).current];
            leg.replies >= 3 || leg.idleSeen
  {
    var s' := Step(s, e);
    StepKeepsInv(s, e);
    assert LegInv(s', s'.current);
  }

  // ---------- With the pool ----------

  datatype System = System(pool: WorkerPool.Pool, stream: Stream)

  datatype SystemEvent =
    | OnStream(e: Event)
    | StartSwitch(leg: nat, index: int)
    | OnPool(p: WorkerPool.Event)

  ghost predicate Owns(s: Stream, claim: nat) { exists l :: l in s.legs && s.legs[l].claim == claim }

  /** Other sessions may do anything with the pool except return a claim this stream owns. */
  ghost predicate SystemEnabled(y: System, mapping: map<string, string>, e: SystemEvent) {
    match e
    case OnStream(e) => !e.Begin? && Enabled(y.stream, e)
    case StartSwitch(leg, i) => leg !in y.stream.legs && 0 <= i < |y.pool.clients|
    case OnPool(p) => WorkerPool.Enabled(y.pool, mapping, p) && (p.Return? ==> !Owns(y.stream, p.claim))
  }

  ghost function SystemStep(y: System, mapping: map<string, string>, e: SystemEvent): System
    requires Inv(y.stream) && SystemEnabled(y, mapping, e)
  {
    match e
    case OnStream(e) =>
      var d := DiscardOf(y.stream, e);
      System(if d.Some? && d.value in y.stream.legs then WorkerPool.Returned(y.pool, y.stream.legs[d.value].claim) else y.pool,
             Step(y.stream, e))
    case StartSwitch(leg, i) =>
      System(WorkerPool.Claimed(y.pool, i), Step(y.stream, Begin(y.pool.clients[i], y.pool.nextClaim, leg)))
    case OnPool(p) => System(WorkerPool.Step(y.pool, mapping, p), y.stream)
  }

  /** A leg's claim counts in the pool exactly while the leg is not discarded, and no two legs share a claim. */
  ghost predicate Linked(y: System) {
    && (forall l :: l in y.stream.legs ==> y.stream.legs[l].claim < y.pool.nextClaim)
    && (forall l :: l in y.stream.legs ==>
          if y.stream.legs[l].discarded == 0
          then y.stream.legs[l].claim in y.pool.claims && y.pool.claims[y.stream.legs[l].claim] == y.stream.legs[l].client
          else y.stream.legs[l].claim !in y.pool.claims)
    && (forall l, m :: l in y.stream.legs && m in y.stream.legs && l != m ==>
          y.stream.legs[l].claim != y.stream.legs[m].claim)
  }

  ghost predicate SystemInv(y: System, mapping: map<string, string>) {
    WorkerPool.Inv(y.pool, mapping) && Inv(y.stream) && Linked(y)
  }

  /** A pool step returns nothing but the claim it names, and hands out only new claims. */
  lemma PoolStepClaims(p: WorkerPool.Pool, mapping: map<string, string>, e: WorkerPool.Event)
    requires WorkerPool.Inv(p, mapping) && WorkerPool.Enabled(p, mapping, e)
    ensures var p' := WorkerPool.Step(p, mapping, e);
            && p'.nextClaim >= p.nextClaim
            && (forall c :: c in p.claims && !(e.Return? && e.claim == c) ==> c in p'.claims && p'.claims[c] == p.claims[c])
            && (forall c :: c in p'.claims && c < p.nextClaim ==> c in p.claims)
  {
    hide WorkerPool.Load, WorkerPool.IsPick, WorkerPool.IsMoveTarget, WorkerPool.VodBooks, WorkerPool.VodSafe, WorkerPool.Preempted;
    match e
    case Acquire(_, i) => PreemptClaims(p, p.clients[i].address) by { PickInRange(p, e.mode, i); }
    case Move(_, _, _, i) => PreemptClaims(p, p.clients[i].address) by { WorkerPool.MoveInRange(p, e); }
    case Remove(i) => PreemptClaims(p, p.clients[i].address);
    case SetDraining(address, _) => PreemptClaims(p.(draining := p.draining + {address}), address);
    case SetReady(address, _) => PreemptClaims(p.(unready := p.unready + {address}), address);
    case _ =>
  }

  lemma PickInRange(p: WorkerPool.Pool, mode: bool, i: int)
    requires WorkerPool.IsPick(p, mode, i)
    ensures 0 <= i < |p.clients|
  {
  }

  lemma PreemptClaims(p: WorkerPool.Pool, address: string)
    ensures WorkerPool.Preempted(p, address).claims == p.claims && WorkerPool.Preempted(p, address).nextClaim == p.nextClaim
  {
  }

  lemma StreamStepKeeps(y: System, mapping: map<string, string>, e: Event)
    requires SystemInv(y, mapping) && SystemEnabled(y, mapping, OnStream(e))
    ensures SystemInv(SystemStep(y, mapping, OnStream(e)), mapping)
  {
    hide WorkerPool.Inv, Inv, Step, Enabled;
    var y' := SystemStep(y, mapping, OnStream(e));
    StepKeepsInv(y.stream, e);
    forall m | m in y.stream.legs {
      DiscardsExactly(y.stream, e, m);
    }
    SameLegs(y.stream, e);
    var d := DiscardOf(y.stream, e);
    if d.Some? {
      DiscardedOnce(y.stream, e);
      WorkerPool.ReturnKeeps(y.pool, mapping, y.stream.legs[d.value].claim);
    }
  }

  lemma SameLegs(s: Stream, e: Event)
    requires Inv(s) && Enabled(s, e) && !e.Begin?
    ensures Step(s, e).legs.Keys == s.legs.Keys
  {
    hide LegInv;
    if e.IdleSwitch? {
      LegStanding(s, e.leg);
    }
  }

  lemma StartSwitchKeeps(y: System, mapping: map<string, string>, leg: nat, i: int)
    requires SystemInv(y, mapping) && SystemEnabled(y, mapping, StartSwitch(leg, i))
    ensures SystemInv(SystemStep(y, mapping, StartSwitch(leg, i)), mapping)
  {
    hide WorkerPool.VodBooks, WorkerPool.VodSafe, LegInv, WorkerPool.Preempted;
    WorkerPool.ClaimKeeps(y.pool, mapping, i);
    StepKeepsInv(y.stream, Begin(y.pool.clients[i], y.pool.nextClaim, leg));
  }

  lemma SystemStepKeeps(y: System, mapping: map<string, string>, e: SystemEvent)
    requires SystemInv(y, mapping) && SystemEnabled(y, mapping, e)
    ensures SystemInv(SystemStep(y, mapping, e), mapping)
  {
    match e
    case OnStream(e) => StreamStepKeeps(y, mapping, e);
    case StartSwitch(leg, i) => StartSwitchKeeps(y, mapping, leg, i);
    case OnPool(p) => PoolStepKeeps(y, mapping, p);
  }

  lemma PoolStepKeeps(y: System, mapping: map<string, string>, p: WorkerPool.Event)
    requires SystemInv(y, mapping) && SystemEnabled(y, mapping, OnPool(p))
    ensures SystemInv(SystemStep(y, mapping, OnPool(p)), mapping)
  {
    hide WorkerPool.Inv, WorkerPool.Step, WorkerPool.Enabled, Inv;
    WorkerPool.StepKeepsInv(y.pool, mapping, p);
    PoolStepClaims(y.pool, mapping, p);
  }

  ghost predicate SystemRuns(y: System, mapping: map<string, string>, run: seq<SystemEvent>)
    requires SystemInv(y, mapping)
    decreases |run|
  {
    run == [] ||
    (SystemEnabled(y, mapping, run[0]) &&
     (SystemStepKeeps(y, mapping, run[0]); SystemRuns(SystemStep(y, mapping, run[0]), mapping, run[1..])))
  }

  ghost function SystemAfter(y: System, mapping: map<string, string>, run: seq<SystemEvent>): System
    requires SystemInv(y, mapping) && SystemRuns(y, mapping, run)
    decreases |run|
  {
    if run == [] then y
    else (SystemStepKeeps(y, mapping, run[0]); SystemAfter(SystemStep(y, mapping, run[0]), mapping, run[1..]))
  }

  /** A stream opened on a worker just claimed starts in order. */
  lemma OpenedSystem(p: WorkerPool.Pool, mapping: map<string, string>, i: int)
    requires WorkerPool.Inv(p, mapping) && 0 <= i < |p.clients|
    ensures SystemInv(System(WorkerPool.Claimed(p, i), Opened(p.clients[i], p.nextClaim)), mapping)
  {
    WorkerPool.ClaimKeeps(p, mapping, i);
    StartInv(p.clients[i], p.nextClaim);
    PreemptClaims(p, p.clients[i].address);
    hide WorkerPool.Inv, Inv, WorkerPool.Preempted;
  }

  /** Main theorem, over every interleaving of frames, warm-ups, switches, timeouts, Close, Release and pool changes. */
  lemma {:induction false} RunKeepsSystem(y: System, mapping: map<string, string>, run: seq<SystemEvent>)
    requires SystemInv(y, mapping) && SystemRuns(y, mapping, run)
    ensures SystemInv(SystemAfter(y, mapping, run), mapping)
    decreases |run|
  {
    hide WorkerPool.Inv, Inv, Linked, SystemStep, SystemEnabled;
    if run != [] {
      SystemStepKeeps(y, mapping, run[0]);
      RunKeepsSystem(SystemStep(y, mapping, run[0]), mapping, run[1..]);
    }
  }

  /** Nothing is due and no switch call is about to place a leg. */
  ghost predicate Settled(s: Stream) {
    forall l :: l in s.legs ==> s.legs[l].discardDue == 0 && !Held(s.legs[l])
  }

  /** After Release, once the pending discards have run, every leg was discarded exactly once and the pool counts
      none of its claims any more. */
  lemma NothingOutlivesRelease(y: System, mapping: map<string, string>, l: nat)
    requires SystemInv(y, mapping) && y.stream.released && Settled(y.stream) && l in y.stream.legs
    ensures y.stream.legs[l].discarded == 1
    ensures y.stream.legs[l].claim !in y.pool.claims
  {
    assert LegInv(y.stream, l);
  }

  /** Before Release, exactly the current leg, the candidate and legs on their way count in the pool. */
  lemma ClaimsOfStream(y: System, mapping: map<string, string>, l: nat)
    requires SystemInv(y, mapping) && Settled(y.stream) && !y.stream.released && l in y.stream.legs
    ensures y.stream.legs[l].claim in y.pool.claims <==> l == y.stream.current || y.stream.candidate == Some(l)
  {
    assert LegInv(y.stream, l);
  }

  // ---------- Runs of the stream alone ----------

  ghost predicate StreamRuns(s: Stream, run: seq<Event>)
    requires Inv(s)
    decreases |run|
  {
    run == [] || (Enabled(s, run[0]) && (StepKeepsInv(s, run[0]); StreamRuns(Step(s, run[0]), run[1..])))
  }

  ghost function StreamAfter(s: Stream, run: seq<Event>): Stream
    requires Inv(s) && StreamRuns(s, run)
    decreases |run|
  {
    if run == [] then s else (StepKeepsInv(s, run[0]); StreamAfter(Step(s, run[0]), run[1..]))
  }

  lemma {:induction false} StreamRunKeeps(s: Stream, run: seq<Event>)
    requires Inv(s) && StreamRuns(s, run)
    ensures Inv(StreamAfter(s, run))
    decreases |run|
  {
    hide Inv, Step, Enabled;
    if run != [] {
      StepKeepsInv(s, run[0]);
      StreamRunKeeps(Step(s, run[0]), run[1..]);
    }
  }

  lemma OneStepRun(s: Stream, e: Event, rest: seq<Event>)
    requires Inv(s) && Enabled(s, e) && Inv(Step(s, e)) && StreamRuns(Step(s, e), rest)
    ensures StreamRuns(s, [e] + rest) && StreamAfter(s, [e] + rest) == StreamAfter(Step(s, e), rest)
  {
    hide Step, Inv, Enabled;
    assert ([e] + rest)[1..] == rest;
  }

  // ---------- What a discard does not stop ----------

  /** Somebody is still going to call the leg's worker: a warm-up in its call, a frame that captured the leg as current and has
      not been sent, or a frame that captured it as candidate and has not tried to warm it. */
  ghost predicate CanReopen(s: Stream, l: nat)
    requires l in s.legs
  {
    || s.legs[l].warm == Calling
    || (s.frame.Some? && s.frame.value.current == l && s.frame.value.stage != Through)
    || (s.frame.Some? && s.frame.value.candidate == Some(l) && s.frame.value.stage == Captured)
  }

  ghost predicate Shut(s: Stream, l: nat) {
    l in s.legs && s.legs[l].discarded == 1 && !s.legs[l].open
  }

  /** A discarded leg that nobody is going to call stays shut, and nobody is going to call it later. */
  lemma SettledLegStays(s: Stream, e: Event, l: nat)
    requires Inv(s) && Enabled(s, e) && Shut(s, l) && !CanReopen(s, l)
    ensures Shut(Step(s, e), l) && !CanReopen(Step(s, e), l)
  {
    DiscardedIsFree(s, l);
    DiscardsExactly(s, e, l);
    DiscardsAtMostOnce(s, e, l);
    hide LegInv;
    if e.IdleSwitch? {
      LegStanding(s, e.leg);
    }
  }

  lemma DiscardsAtMostOnce(s: Stream, e: Event, l: nat)
    requires Inv(s) && Enabled(s, e) && l in s.legs
    ensures l in Step(s, e).legs && Step(s, e).legs[l].discarded <= 1
  {
    DiscardsExactly(s, e, l);
    StepKeepsInv(s, e);
    assert LegInv(Step(s, e), l);
  }

  lemma DiscardedIsFree(s: Stream, l: nat)
    requires Inv(s) && l in s.legs && s.legs[l].discarded == 1
    ensures s.candidate != Some(l) && !Held(s.legs[l]) && s.legs[l].discardDue == 0
    ensures s.current == l ==> s.released
  {
    assert LegInv(s, l);
  }

  lemma {:induction false} StaysShut(s: Stream, run: seq<Event>, l: nat)
    requires Inv(s) && StreamRuns(s, run) && Shut(s, l) && !CanReopen(s, l)
    ensures Shut(StreamAfter(s, run), l)
    decreases |run|
  {
    hide Inv, Step, Enabled, Shut, CanReopen;
    if run != [] {
      StepKeepsInv(s, run[0]);
      SettledLegStays(s, run[0], l);
      StaysShut(Step(s, run[0]), run[1..], l);
    }
  }

  /** The reply of a warm-up in its call opens the leg's stream. */
  lemma CallOpens(s: Stream, l: nat)
    requires Inv(s) && l in s.legs && s.legs[l].warm == Calling
    ensures Enabled(s, WarmReply(l, true)) && Inv(Step(s, WarmReply(l, true)))
    ensures l in Step(s, WarmReply(l, true)).legs && Step(s, WarmReply(l, true)).legs[l].open
  {
    StepKeepsInv(s, WarmReply(l, true));
    hide LegInv;
  }

  lemma CallOpensRun(s: Stream, l: nat)
    requires Inv(s) && l in s.legs && s.legs[l].warm == Calling
    ensures exists run :: StreamRuns(s, run) && l in StreamAfter(s, run).legs && StreamAfter(s, run).legs[l].open
  {
    hide Step, Inv, Enabled;
    CallOpens(s, l);
    var next := Step(s, WarmReply(l, true));
    assert StreamRuns(next, []) && StreamAfter(next, []) == next;
    StepThenOpens(s, WarmReply(l, true), l);
  }

  /** A step in front of a run that opens the leg. */
  lemma StepThenOpens(s: Stream, e: Event, l: nat)
    requires Inv(s) && Enabled(s, e) && Inv(Step(s, e))
    requires exists run :: StreamRuns(Step(s, e), run) && l in StreamAfter(Step(s, e), run).legs && StreamAfter(Step(s, e), run).legs[l].open
    ensures exists run :: StreamRuns(s, run) && l in StreamAfter(s, run).legs && StreamAfter(s, run).legs[l].open
  {
    hide Step, Inv, Enabled;
    var rest :| StreamRuns(Step(s, e), rest) && l in StreamAfter(Step(s, e), rest).legs && StreamAfter(Step(s, e), rest).legs[l].open;
    OneStepRun(s, e, rest);
    assert StreamAfter(s, [e] + rest).legs[l].open;
  }

  /** A frame on its way to the leg opens it. */
  lemma FrameOpensRun(s: Stream, l: nat)
    requires Inv(s) && l in s.legs && s.frame.Some? && s.frame.value.current == l && s.frame.value.stage != Through
    ensures exists run :: StreamRuns(s, run) && l in StreamAfter(s, run).legs && StreamAfter(s, run).legs[l].open
    decreases s.frame.value.stage == Captured
  {
    var e := if s.frame.value.stage == Captured then FrameWarm else FrameCall;
    StepKeepsInv(s, e);
    hide LegInv, Inv;
    if e.FrameWarm? {
      FrameOpensRun(Step(s, e), l);
    } else {
      assert StreamRuns(Step(s, e), []) && StreamAfter(Step(s, e), []) == Step(s, e);
    }
    StepThenOpens(s, e, l);
  }

  /** A frame that is going to warm the leg up opens it, after a warm-up that is just finishing. */
  lemma WarmOpensRun(s: Stream, l: nat)
    requires Inv(s) && l in s.legs && s.frame.Some? && s.frame.value.candidate == Some(l) && s.frame.value.stage == Captured
    ensures exists run :: StreamRuns(s, run) && l in StreamAfter(s, run).legs && StreamAfter(s, run).legs[l].open
    decreases if s.legs[l].warm == Finishing then 1 else 0
  {
    if s.legs[l].warm == Calling {
      CallOpensRun(s, l);
    } else {
      var e := if s.legs[l].warm == Finishing then WarmExit(l) else FrameWarm;
      StepKeepsInv(s, e);
      hide LegInv, Inv;
      if e.WarmExit? {
        WarmOpensRun(Step(s, e), l);
      } else {
        CallOpensRun(Step(s, e), l);
      }
      StepThenOpens(s, e, l);
    }
  }

  /** Exactly when a discarded leg's stream is opened again along some run. */
  lemma ReopensExactly(s: Stream, l: nat)
    requires Inv(s) && Shut(s, l)
    ensures (exists run :: StreamRuns(s, run) && l in StreamAfter(s, run).legs && StreamAfter(s, run).legs[l].open) <==>
            CanReopen(s, l)
  {
    hide Inv;
    if s.legs[l].warm == Calling {
      CallOpensRun(s, l);
    } else if CanReopen(s, l) {
      if s.frame.value.current == l && s.frame.value.stage != Through {
        FrameOpensRun(s, l);
      } else {
        WarmOpensRun(s, l);
      }
    } else {
      forall run | StreamRuns(s, run)
        ensures Shut(StreamAfter(s, run), l)
      {
        StaysShut(s, run, l);
      }
    }
  }

  /** It does happen: a frame that captured the leg before Release opens its stream after the discard. */
  lemma LateFrameReopens(s: Stream)
    requires Inv(s) && !s.released && s.candidate.None? && s.frame == Some(Frame(s.current, None, Tried))
    ensures Inv(ReleasedAll(s)) && Enabled(ReleasedAll(s), RunDiscard(s.current))
    ensures var late := FrameCalled(Step(ReleasedAll(s), RunDiscard(s.current)));
            late.released && late.legs[s.current].discarded == 1 && late.legs[s.current].open
  {
    assert LegInv(s, s.current);
    StepKeepsInv(s, Release);
    hide LegInv, Inv;
    var l := s.current;
    var released := ReleasedAll(s);
    assert released.legs == s.legs[l := Doomed(s.legs[l])] && released.current == l && released.frame == s.frame;
    var discarded := Step(released, RunDiscard(l));
    assert discarded.frame == s.frame && discarded.legs[l].discarded == 1;
  }

  lemma ClosedLeg(s: Stream, l: nat)
    requires Inv(s) && s.candidate == Some(l)
    ensures Inv(ClosedUp(s)) && l in ClosedUp(s).legs && ClosedUp(s).legs[l] == Owed(Doomed(s.legs[l]), Interrupted)
    ensures s.legs[l].discarded == 0 && s.legs[l].discardDue == 0 && ClosedUp(s).candidate.None?
  {
    assert LegInv(s, l);
    CloseKeeps(s);
    hide LegInv;
  }

  /** And without any Release or frame: a warm-up reply that arrives after Close has dropped and discarded its leg. */
  lemma LateReplyReopens(s: Stream, l: nat)
    requires Inv(s) && s.candidate == Some(l) && s.legs[l].warm == Calling
    ensures var closed := ClosedUp(s);
            && Inv(closed) && Enabled(closed, RunDiscard(l))
            && (StepKeepsInv(closed, RunDiscard(l));
                var discarded := Step(closed, RunDiscard(l));
                Enabled(discarded, WarmReply(l, true)) && Shut(discarded, l) &&
                Step(discarded, WarmReply(l, true)).legs[l].discarded == 1 && Step(discarded, WarmReply(l, true)).legs[l].open)
  {
    hide LegInv, ClosedUp;
    ClosedLeg(s, l);
    StepKeepsInv(ClosedUp(s), RunDiscard(l));
    hide Inv;
  }

  // ---------- Idleness ----------

  /** The clock readings of the frames of a run, in order, from t0 to t1. */
  ghost predicate FramesBetween(run: seq<Event>, t0: int, t1: int) {
    && (forall i :: 0 <= i < |run| && run[i].FrameBegin? ==> t0 <= run[i].now <= t1)
    && (forall i, j :: 0 <= i < j < |run| && run[i].FrameBegin? && run[j].FrameBegin? ==> run[i].now <= run[j].now)
  }

  /** No frame of the run lies within the idle window before t. */
  ghost predicate NoRecentFrame(run: seq<Event>, t: int) {
    forall i :: 0 <= i < |run| && run[i].FrameBegin? ==> t - run[i].now > IDLE_AFTER
  }

  lemma ReleasedForGood(s: Stream, e: Event)
    requires Inv(s) && Enabled(s, e)
    ensures s.released ==> Step(s, e).released
    ensures Step(s, e).lastProcess == if e.FrameBegin? && !s.released then Some(e.now) else s.lastProcess
  {
    hide LegInv;
    if e.IdleSwitch? {
      LegStanding(s, e.leg);
    }
  }

  /** Along a run that does not end released, the stream is idle at t exactly if it was at its start and no frame was recent. */
  lemma {:induction false} IdleAfterRun(s: Stream, run: seq<Event>, t0: int, t: int)
    requires Inv(s) && StreamRuns(s, run) && FramesBetween(run, t0, t) && t0 <= t
    requires s.lastProcess.Some? ==> s.lastProcess.value <= t0
    requires !StreamAfter(s, run).released
    ensures !s.released && (Idle(StreamAfter(s, run), t) <==> Idle(s, t) && NoRecentFrame(run, t))
    decreases |run|
  {
    hide Inv, Step, Enabled;
    if run != [] {
      var e, rest := run[0], run[1..];
      StepKeepsInv(s, e);
      ReleasedForGood(s, e);
      var next := if e.FrameBegin? then e.now else t0;
      assert FramesBetween(rest, next, t);
      IdleAfterRun(Step(s, e), rest, next, t);
      assert NoRecentFrame(run, t) <==> (e.FrameBegin? ==> t - e.now > IDLE_AFTER) && NoRecentFrame(rest, t) by {
        assert forall i :: 0 < i < |run| ==> run[i] == rest[i - 1];
        assert forall i :: 0 <= i < |rest| ==> rest[i] == run[i + 1];
      }
    }
  }

  /** The switch of l enters at t0 and the run follows. */
  ghost predicate EntersAndRuns(s: Stream, l: nat, t0: int, run: seq<Event>) {
    Inv(s) && Enabled(s, Enter(l, t0)) && (StepKeepsInv(s, Enter(l, t0)); StreamRuns(Step(s, Enter(l, t0)), run))
  }

  ghost function AfterEntry(s: Stream, l: nat, t0: int, run: seq<Event>): (s': Stream)
    requires EntersAndRuns(s, l, t0, run)
    ensures Inv(s')
  {
    StepKeepsInv(s, Enter(l, t0));
    StreamRunKeeps(Step(s, Enter(l, t0)), run);
    StreamAfter(Step(s, Enter(l, t0)), run)
  }

  /** From the entry of a switch on an idle stream, through any run, to its promotion: the stream is still idle then exactly
      if no frame came in between within the idle window. */
  lemma IdleAtPromotion(s: Stream, l: nat, t0: int, run: seq<Event>, t: int)
    requires EntersAndRuns(s, l, t0, run) && Switchable(s, s.legs[l].client) && Idle(s, t0)
    requires (s.lastProcess.Some? ==> s.lastProcess.value <= t0) && FramesBetween(run, t0, t) && t0 <= t
    requires var s' := AfterEntry(s, l, t0, run); Enabled(s', IdleSwitch(l)) && Switchable(s', s'.legs[l].client)
    ensures var promoted := Step(AfterEntry(s, l, t0, run), IdleSwitch(l));
            promoted.current == l && (Idle(promoted, t) <==> NoRecentFrame(run, t))
  {
    var s1 := Step(s, Enter(l, t0));
    StepKeepsInv(s, Enter(l, t0));
    assert s1.lastProcess == s.lastProcess;
    var s' := AfterEntry(s, l, t0, run);
    LegStanding(s', l);
    IdleAfterRun(s1, run, t0, t);
    hide LegInv, Inv, StreamRuns, StreamAfter;
  }

  /** How each promotion was earned: by a frame, with enough valid replies; by the idle check, on a stream idle at that moment;
      by the idle switch, on a stream that was idle when the switch entered (and IdleAtPromotion says when it still is). */
  lemma PromotionsByCause(s: Stream, e: Event)
    requires Inv(s) && Enabled(s, e) && Step(s, e).current != s.current
    ensures match e
            case FrameBegin(_) => s.candidate.Some? && s.candidate.value in s.legs && s.legs[s.candidate.value].replies >= 3
            case IdleCheck(l, now) => Idle(s, now) && Step(s, e).current == l
            case IdleSwitch(l) => s.legs[l].idleSeen && Step(s, e).current == l
            case _ => false
  {
    if e.FrameBegin? && s.candidate.Some? {
      assert LegInv(s, s.candidate.value);
    } else if e.IdleSwitch? {
      assert LegInv(s, e.leg);
      LegStanding(s, e.leg);
    }
    hide LegInv;
  }

  /** And a frame may pass between the check and the promotion, which then happens on a stream that is not idle, for a leg
      that never answered. */
  lemma IdlenessIsNotRechecked(a: WorkerPool.Client, b: WorkerPool.Client, now: int)
    requires a != b
    ensures var s0 := Opened(a, 0).(legs := map[0 := NewLeg(a, 0, Over), 1 := NewLeg(b, 1, Fresh)]);
            var s1 := Entered(s0, 1, now);
            var s2 := FrameBegun(s1, now).(frame := None);
            var s3 := IdleSwitched(s2, 1);
            && Inv(s0) && Inv(s1) && Inv(s2) && Inv(s3)
            && s1.legs[1].phase == IdleReady
            && s3.current == 1 && s3.legs[1].replies == 0 && !Idle(s3, now)
  {
    hide LegInv;
    StartInv(a, 0);
    BeginKeeps(Opened(a, 0), b, 1, 1);
    var s0 := Opened(a, 0).(legs := map[0 := NewLeg(a, 0, Over), 1 := NewLeg(b, 1, Fresh)]);
    assert s0.legs == Opened(a, 0).legs[1 := NewLeg(b, 1, Fresh)];
    EnterKeeps(s0, 1, now);
    var s1 := Entered(s0, 1, now);
    FrameBeginKeeps(s1, now);
    ClockKeeps(FrameBegun(s1, now), None, None);
    IdleSwitchKeeps(FrameBegun(s1, now).(frame := None), 1);
  }
}
