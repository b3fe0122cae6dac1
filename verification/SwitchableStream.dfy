/** The stream as the server keeps it: fields changed in place, one method per critical section of switch.go.  Each method
    is proved to be exactly one step of StreamSwitch, so every theorem of Handover.dfy is about this code. */
module SwitchableStreams {
  import opened Basics
  import WorkerPool
  import opened StreamSwitch

  /** Why a switch is refused. */
  datatype Refusal = StreamReleased | SwitchUnderWay | SameWorker

  /** How SwitchTo goes on after its first section. */
  datatype Entry = Refused(why: Refusal) | GoIdle | Await

  class SwitchableStream {
    var legs: map<nat, Leg>
    var current: nat
    var candidate: Option<nat>
    var released: bool
    var lastProcessAt: Option<int>
    /** Set while a frame holds processMu. */
    var frame: Option<Frame>

    ghost function View(): Stream
      reads this
    {
      Stream(legs, current, candidate, released, lastProcessAt, frame)
    }

    ghost predicate Valid()
      reads this
    {
      Inv(View())
    }

    constructor (client: WorkerPool.Client, claim: nat)
      ensures Valid() && View() == Opened(client, claim)
    {
      legs := map[0 := NewLeg(client, claim, Over)];
      current, candidate, released, lastProcessAt, frame := 0, None, false, None, None;
      new;
      StartInv(client, claim);
    }

    method DiscardLeg(l: nat)
      requires l in legs
      modifies this`legs
      ensures legs == old(legs)[l := StreamSwitch.Discarded(old(legs)[l])]
    {
      legs := legs[l := legs[l].(open := false)];
      legs := legs[l := legs[l].(discarded := legs[l].discarded + 1)];
    }

    /** Both mutexes held: between two frames, the candidate takes over. */
    method PromoteLocked()
      requires candidate.Some? && candidate.value in legs && current in legs && candidate.value != current
      modifies this`legs, this`current, this`candidate
      ensures View() == Promote(old(View()), old(candidate).value)
    {
      var previous := current;
      current, candidate := candidate.value, None;
      DiscardLeg(previous);
      legs := legs[current := Sent(legs[current], Promoted)];
    }

    /** The section of Process before the frame is sent, holding processMu from here to the end of the frame. */
    method BeginFrame(now: int) returns (accepted: bool)
      requires Valid() && frame.None?
      modifies this
      ensures Valid() && View() == Step(old(View()), FrameBegin(now))
      ensures accepted <==> !old(released)
    {
      hide LegInv;
      StepKeepsInv(View(), FrameBegin(now));
      if released {
        return false;
      }
      lastProcessAt := Some(now);
      if candidate.Some? && legs[candidate.value].ready {
        PromoteLocked();
      }
      frame := Some(Frame(current, candidate, Captured));
      return true;
    }

    /** At most one warm-up call per leg: the busy flag is taken by compare-and-swap. */
    method StartWarmUp() returns (started: bool)
      requires Valid() && Enabled(View(), FrameWarm)
      modifies this`legs, this`frame
      ensures Valid() && View() == Step(old(View()), FrameWarm)
      ensures var c := old(frame).value.candidate; started <==> c.Some? && c.value in old(legs) && old(legs)[c.value].warm == Resting
    {
      hide LegInv;
      StepKeepsInv(View(), FrameWarm);
      var c := frame.value.candidate;
      frame := Some(frame.value.(stage := Tried));
      if c.Some? && c.value in legs && legs[c.value].warm == Resting {
        legs := legs[c.value := legs[c.value].(warm := Calling)];
        return true;
      }
      return false;
    }

    /** The frame goes to the current leg's worker, which opens the leg's stream if it is closed. */
    method SendFrame()
      requires Valid() && Enabled(View(), FrameCall)
      modifies this`legs, this`frame
      ensures Valid() && View() == Step(old(View()), FrameCall)
    {
      hide LegInv;
      StepKeepsInv(View(), FrameCall);
      var l := frame.value.current;
      frame := Some(frame.value.(stage := Through));
      if l in legs {
        legs := legs[l := legs[l].(open := true)];
      }
    }

    method DropCandidate(l: nat, why: Outcome)
      requires l in legs
      modifies this`legs, this`candidate
      ensures View() == if old(candidate) == Some(l) then Drop(old(View()), l, why) else old(View())
    {
      if candidate != Some(l) {
        return;
      }
      candidate := None;
      legs := legs[l := legs[l].(discardDue := legs[l].discardDue + 1)];
      legs := legs[l := legs[l].(sendDue := legs[l].sendDue + [why])];
    }

    /** A warm-up reply counts only while its leg is still the candidate. */
    method FinishWarmUp(l: nat, valid: bool)
      requires Valid() && l in legs && legs[l].warm == Calling
      modifies this`legs, this`candidate
      ensures Valid() && View() == Step(old(View()), WarmReply(l, valid))
    {
      hide LegInv;
      StepKeepsInv(View(), WarmReply(l, valid));
      legs := legs[l := legs[l].(warm := Finishing, open := true)];
      if !valid {
        DropCandidate(l, WarmFailed);
        return;
      }
      legs := legs[l := legs[l].(replies := legs[l].replies + 1)];
      if candidate != Some(l) {
        assert legs == old(legs)[l := legs[l]];
        return;
      }
      var leg := legs[l].(warmed := legs[l].warmed + 1);
      if leg.warmed >= WARM_FRAMES {
        leg := leg.(ready := true);
      }
      legs := legs[l := leg];
      assert legs == old(legs)[l := leg];
    }

    method NewSwitch(client: WorkerPool.Client, claim: nat, l: nat)
      requires Valid() && l !in legs
      modifies this`legs
      ensures Valid() && View() == Step(old(View()), Begin(client, claim, l))
    {
      hide LegInv;
      StepKeepsInv(View(), Begin(client, claim, l));
      legs := legs[l := NewLeg(client, claim, Fresh)];
    }

    method SwitchableLocked(client: WorkerPool.Client) returns (refusal: Option<Refusal>)
      requires current in legs
      ensures refusal.None? <==> Switchable(View(), client)
      ensures refusal == Some(StreamReleased) <==> released
      ensures refusal == Some(SwitchUnderWay) <==> !released && candidate.Some?
      ensures refusal == Some(SameWorker) <==> !released && candidate.None? && legs[current].client == client
    {
      if released {
        return Some(StreamReleased);
      }
      if candidate.Some? {
        return Some(SwitchUnderWay);
      }
      if legs[current].client == client {
        return Some(SameWorker);
      }
      return None;
    }

    /** The first section of SwitchTo. */
    method EnterSwitch(l: nat, now: int) returns (entry: Entry)
      requires Valid() && l in legs && legs[l].phase == Fresh
      modifies this`legs, this`candidate
      ensures Valid() && View() == Step(old(View()), Enter(l, now))
      ensures entry.Refused? <==> legs[l].phase == Over
      ensures entry == GoIdle <==> legs[l].phase == IdleReady
      ensures entry == Refused(StreamReleased) <==> old(released)
      ensures entry == Refused(SwitchUnderWay) <==> !old(released) && old(candidate).Some?
    {
      hide LegInv;
      StepKeepsInv(View(), Enter(l, now));
      var refusal := SwitchableLocked(legs[l].client);
      if refusal.Some? {
        legs := legs[l := legs[l].(discardDue := legs[l].discardDue + 1, phase := Over)];
        return Refused(refusal.value);
      }
      var idle := lastProcessAt.None? || now - lastProcessAt.value > IDLE_AFTER;
      if !idle {
        candidate := Some(l);
        legs := legs[l := legs[l].(phase := Awaiting)];
        return Await;
      }
      legs := legs[l := legs[l].(phase := IdleReady, idleSeen := true)];
      return GoIdle;
    }

    /** The second section of SwitchTo on an idle stream: re-checks the stream, not its idleness. */
    method SwitchIdle(l: nat) returns (refusal: Option<Refusal>)
      requires Valid() && l in legs && legs[l].phase == IdleReady && frame.None?
      modifies this`legs, this`current, this`candidate
      ensures Valid() && View() == Step(old(View()), IdleSwitch(l))
      ensures refusal.None? <==> current == l
      ensures refusal == Some(StreamReleased) <==> old(released)
      ensures refusal == Some(SwitchUnderWay) <==> !old(released) && old(candidate).Some?
    {
      hide LegInv;
      StepKeepsInv(View(), IdleSwitch(l));
      LegStanding(View(), l);
      refusal := SwitchableLocked(legs[l].client);
      legs := legs[l := legs[l].(phase := Over)];
      if refusal.Some? {
        DiscardLeg(l);
        assert legs == old(legs)[l := legs[l]];
        return;
      }
      candidate := Some(l);
      PromoteLocked();
      legs := legs[l := legs[l].(inbox := [])];
    }

    /** The section of awaitSwitch after its context ended: the call returns its context's error, or goes on for the result. */
    method GiveUpSwitch(l: nat) returns (returned: bool)
      requires Valid() && l in legs && legs[l].phase == Awaiting
      modifies this`legs, this`candidate
      ensures Valid() && View() == Step(old(View()), GiveUp(l))
      ensures returned <==> old(candidate) == Some(l) && old(legs)[l].warmed < 3
    {
      hide LegInv, Inv;
      ReadyExactly(View(), l);
      StepKeepsInv(View(), GiveUp(l));
      if candidate == Some(l) && !legs[l].ready {
        candidate := None;
        legs := legs[l := legs[l].(discardDue := legs[l].discardDue + 1, phase := Over)];
        return true;
      }
      legs := legs[l := legs[l].(phase := Draining)];
      return false;
    }

    method PromoteIfIdle(l: nat, now: int)
      requires Valid() && l in legs && legs[l].phase == Awaiting && frame.None?
      modifies this`legs, this`current, this`candidate
      ensures Valid() && View() == Step(old(View()), IdleCheck(l, now))
    {
      hide LegInv;
      StepKeepsInv(View(), IdleCheck(l, now));
      if candidate == Some(l) && legs[l].warm == Resting && (lastProcessAt.None? || now - lastProcessAt.value > IDLE_AFTER) {
        legs := legs[l := legs[l].(idleSeen := true)];
        PromoteLocked();
      }
    }

    method CloseInput()
      requires Valid()
      modifies this`legs, this`candidate
      ensures Valid() && View() == Step(old(View()), Close)
    {
      hide LegInv;
      StepKeepsInv(View(), Close);
      legs := legs[current := legs[current].(open := false)];
      if candidate.Some? {
        DropCandidate(candidate.value, Interrupted);
      }
    }

    method ReleaseStream()
      requires Valid()
      modifies this`legs, this`candidate, this`released
      ensures Valid() && View() == Step(old(View()), Release)
    {
      hide LegInv;
      StepKeepsInv(View(), Release);
      if released {
        return;
      }
      released := true;
      legs := legs[current := legs[current].(discardDue := legs[current].discardDue + 1)];
      if candidate.Some? {
        DropCandidate(candidate.value, Closed);
      }
    }
  }

  /** A leg is ready exactly after three valid replies as the candidate. */
  lemma ReadyExactly(s: Stream, l: nat)
    requires Inv(s) && l in s.legs
    ensures s.legs[l].ready <==> s.legs[l].warmed >= 3
  {
    assert LegInv(s, l);
  }
}
