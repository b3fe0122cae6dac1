/** What settings do: to a picture, to the frames of a paused session, and to the generation. */
module PrivacyAnswers {
  import opened Basics
  import EgressWriter
  import opened PrivacyPipeline

  /** A whole-picture blur comes before everything; without it the picture is anonymized, under the mosaic in force, or left. */
  lemma TreatmentMeans(s: Settings)
    ensures TreatmentUnder(s) == Blurred <==> s.blur
    ensures TreatmentUnder(s) == Original <==> !s.blur && !s.anonymize
    ensures TreatmentUnder(s).Anonymized? <==> !s.blur && s.anonymize
    ensures TreatmentUnder(s).Anonymized? ==> TreatmentUnder(s).mosaic == s.mosaic
  {
  }

  /** A new processor anonymizes, does not blur and is not paused, under a generation of its own. */
  lemma StartsAnonymizing(s: Pipeline, p: nat)
    requires Inv(s) && Enabled(s, NewProcessor(p))
    ensures var t := Step(s, NewProcessor(p));
            && t.processors[p] == Processor(t.counter, Settings(true, false, 0), false, Free)
            && t.counter == s.counter + 1 && t.counter !in s.installed && t.installed == s.installed[t.counter := Settings(true, false, 0)]
            && (forall q :: q in s.processors ==> t.processors[q] == s.processors[q])
  {
  }

  // ---------- Suspending the AI's input ----------

  /** Frames of a paused processor are at most inside the lock and about to be dropped. */
  ghost predicate Still(s: Pipeline) {
    forall f :: f in s.work && s.work[f].processor in s.processors && s.processors[s.work[f].processor].paused && HoldsReadLock(s.work[f]) ==>
      s.work[f].stage.Locked?
  }

  lemma AdvanceKeepsStill(s: Pipeline, f: nat)
    requires Inv(s) && Enabled(s, Advance(f)) && Still(s)
    ensures Still(Advanced(s, f))
  {
    hide Numbering, FrameOk, BlockOk, EgressWriter.Inv;
    assert WorkOk(s.work[f], s.processors, s.installed);
  }

  /** Whoever holds the write lock has no reader beside it. */
  lemma ChangeKeepsStill(s: Pipeline, p: nat)
    requires Inv(s) && Enabled(s, ChangeSettings(p)) && Still(s)
    ensures Still(Changed(s, p))
  {
    hide Numbering, FrameOk, BlockOk, EgressWriter.Inv, Applied;
    var t := Changed(s, p);
    forall f | f in t.work && t.work[f].processor in t.processors && t.processors[t.work[f].processor].paused && HoldsReadLock(t.work[f])
      ensures t.work[f].stage.Locked?
    {
      assert WorkOk(s.work[f], s.processors, s.installed);
    }
  }

  lemma OthersKeepStill(s: Pipeline, e: Event)
    requires Inv(s) && Enabled(s, e) && Still(s) && !e.Advance? && !e.ChangeSettings?
    ensures Still(Step(s, e))
  {
    hide Numbering, FrameOk, BlockOk, EgressWriter.Inv, EgressWriter.Step;
    assert forall f :: f in s.work ==> WorkOk(s.work[f], s.processors, s.installed);
    hide WorkOk;
  }

  lemma StepKeepsStill(s: Pipeline, e: Event)
    requires Inv(s) && Enabled(s, e) && Still(s)
    ensures Still(Step(s, e))
  {
    hide Inv, Still, Advanced, Changed;
    match e
    case Advance(f) => AdvanceKeepsStill(s, f);
    case ChangeSettings(p) => ChangeKeepsStill(s, p);
    case _ => OthersKeepStill(s, e);
  }

  lemma {:induction false} RunKeepsStill(s: Pipeline, run: seq<Event>)
    requires Inv(s) && Runs(s, run) && Still(s)
    ensures Still(After(s, run))
    decreases |run|
  {
    hide Inv, Enabled, Step, Still;
    if run != [] {
      StepKeepsInv(s, run[0]);
      StepKeepsStill(s, run[0]);
      RunKeepsStill(Step(s, run[0]), run[1..]);
    }
  }

  /** Main theorem, over every run from the start: once input is suspended, no frame of that processor, not even one that was on
      its way, is looked at, sent to the AI or put out; and the only step open to one that got in is to be dropped. */
  lemma SuspendedIsQuiet(config: EgressWriter.Config, now: int, run: seq<Event>, f: nat)
    requires Runs(Empty(config, now), run)
    ensures var s := After(Empty(config, now), run);
            f in s.work && s.work[f].processor in s.processors && s.processors[s.work[f].processor].paused && HoldsReadLock(s.work[f]) ==>
              && s.work[f].stage == Locked && s.work[f].seen == {}
              && (Enabled(s, Advance(f)) ==> f !in Step(s, Advance(f)).work && f !in Step(s, Advance(f)).stamped)
  {
    EmptyInv(config, now);
    assert Still(Empty(config, now));
    RunKeepsStill(Empty(config, now), run);
    RunKeeps(Empty(config, now), run, 0);
    var s := After(Empty(config, now), run);
    if f in s.work {
      WorkListed(s, f);
    }
    hide Runs, After, EgressWriter.Inv;
  }

  lemma WorkListed(s: Pipeline, f: nat)
    requires Inv(s) && f in s.work
    ensures WorkOk(s.work[f], s.processors, s.installed) && f !in s.stamped
  {
    hide Numbering, BlockOk, EgressWriter.Inv;
  }

  // ---------- Changing a setting ----------

  /** What a setter asks for. */
  predicate Sets(before: Settings, after: Settings, change: Change) {
    match change
    case SetAnonymize(b) => after == Settings(b, before.blur, before.mosaic)
    case SetBlur(b) => after == Settings(before.anonymize, b, before.mosaic)
    case SetMosaic(m) => after == Settings(before.anonymize, before.blur, m)
    case SetPaused(_) => after == before
  }

  lemma SetsExactly(before: Settings, change: Change)
    ensures Sets(before, Applied(before, change), change)
  {
  }

  /** The steps of the holder of the write lock, one after the other and with nothing in between. */
  function Worked(s: Pipeline, p: nat, n: nat): Pipeline
    decreases n
  {
    if n > 0 && p in s.processors && s.processors[p].lock.Held? then Worked(Changed(s, p), p, n - 1) else s
  }

  /** A setter that holds the lock of processor p, from taking it to giving it back: the setting is made; a real change has a
      generation larger than any before, which stands for the new settings; no change keeps the generation. */
  lemma SetterTakesEffect(s: Pipeline, p: nat, change: Change)
    requires Inv(s) && p in s.processors && s.processors[p].lock == Held(change, Entered)
    ensures var t := Worked(s, p, 4);
            && p in t.processors && t.processors[p].lock == Free
            && Sets(s.processors[p].settings, t.processors[p].settings, change)
            && t.processors[p].paused == (if change.SetPaused? then change.paused else s.processors[p].paused)
            && (if t.processors[p].settings == s.processors[p].settings then t.processors[p].generation == s.processors[p].generation
                else t.processors[p].generation == t.counter == s.counter + 1 && t.counter in t.installed &&
                     t.installed[t.counter] == t.processors[p].settings)
  {
    hide Inv, Applied, Sets;
    var proc := s.processors[p];
    SetsExactly(proc.settings, change);
    var s1 := Changed(s, p);
    var s2 := if s1.processors[p].lock.phase.Drawn? then Changed(s1, p) else s1;
    assert Worked(s, p, 4) == Worked(s2, p, if s1.processors[p].lock.phase.Drawn? then 2 else 3);
    assert s2.processors[p].lock == Held(change, Numbered) && s2.processors[p].settings == proc.settings;
    NumberedOn(s2, p, change, if s1.processors[p].lock.phase.Drawn? then 2 else 3);
  }

  /** From the assignment of the field on. */
  lemma NumberedOn(s: Pipeline, p: nat, change: Change, n: nat)
    requires n >= 2 && p in s.processors && s.processors[p].lock == Held(change, Numbered)
    ensures Worked(s, p, n) ==
            s.(processors := s.processors[p := s.processors[p].(settings := Applied(s.processors[p].settings, change),
                                                               paused := if change.SetPaused? then change.paused else s.processors[p].paused,
                                                               lock := Free)])
  {
    hide Applied;
    var s1 := Changed(s, p);
    assert Worked(s, p, n) == Worked(s1, p, n - 1);
    var s2 := Changed(s1, p);
    assert Worked(s1, p, n - 1) == Worked(s2, p, n - 2);
    assert s2.processors == s.processors[p := s2.processors[p]];
  }

  // ---------- The other steps ----------

  /** Taking the lock of the settings touches nothing else. */
  lemma LockTakes(s: Pipeline, p: nat, change: Change)
    requires Enabled(s, LockSettings(p, change))
    ensures Step(s, LockSettings(p, change)) == s.(processors := s.processors[p := s.processors[p].(lock := Held(change, Entered))])
  {
  }

  /** A dropped frame is gone, and was neither stamped nor shown. */
  lemma DropDrops(s: Pipeline, f: nat)
    requires Enabled(s, Drop(f))
    ensures Step(s, Drop(f)) == s.(work := s.work - {f})
  {
  }

  /** The floor becomes the highest generation asked for. */
  lemma FloorRises(s: Pipeline, g: nat)
    ensures Step(s, Invalidate(g)) == s.(floor := Step(s, Invalidate(g)).floor)
    ensures Step(s, Invalidate(g)).floor >= g && Step(s, Invalidate(g)).floor >= s.floor && Step(s, Invalidate(g)).floor in {g, s.floor}
  {
  }

  /** With no look pending the writer may look at anything: the end, a tick, or any stamped frame, against the present floor. */
  lemma AnyLook(s: Pipeline, t: EgressWriter.Turn)
    requires s.looked.None? && (!t.Stop? ==> t.floor == s.floor)
    ensures Enabled(s, Look(t)) <==> (t.Input? ==> t.frame.id in s.stamped && s.stamped[t.frame.id] == t.frame)
    ensures Enabled(s, Look(t)) ==> Step(s, Look(t)) == s.(looked := Some(t))
  {
  }

  /** The writer moves by completing the turn it looked at, and by being started anew. */
  lemma WriterMoves(s: Pipeline, e: Event)
    requires Enabled(s, e)
    ensures var t := Step(s, e);
            match e
            case Write(slateReady, writeOk, at) =>
              && t.writer == EgressWriter.Step(s.config, s.writer, Completed(s.looked.value, slateReady, writeOk, at)) && t.config == s.config
              && t.looked == None
            case Restart(config, now, stalled) => t.config == config && t.writer == EgressWriter.Start(now, stalled) && t.looked == s.looked
            case Look(_) => t.config == s.config && t.writer == s.writer
            case _ => t.config == s.config && t.writer == s.writer && t.looked == s.looked
  {
    hide EgressWriter.Step;
  }

  /** What completes a turn: the clock and the success of its write, and whether a slate could be made. */
  lemma CompletedMeans(t: EgressWriter.Turn, slateReady: bool, writeOk: bool, at: int)
    ensures var u := Completed(t, slateReady, writeOk, at);
            match t
            case Stop => u == EgressWriter.Stop
            case Input(f, slateWanted, floor, _, _) => u == EgressWriter.Input(f, slateWanted, floor, at, writeOk)
            case Tick(slateWanted, floor, now, _, _) => u == EgressWriter.Tick(slateWanted, floor, now, slateReady, writeOk)
  {
  }
}
