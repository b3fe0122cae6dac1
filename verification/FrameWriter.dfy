/** writeFrames in the form of the source: local variables changed by nested helpers and one loop over what arrives. */
module FrameWriters {
  import opened Basics
  import opened EgressWriter

  lemma {:induction false} FinishedStays(c: Config, w: Writer, turns: seq<Turn>)
    requires !w.outcome.Running?
    ensures Run(c, w, turns) == w
    decreases |turns|
  {
    if turns != [] {
      FinishedStays(c, w, turns[1..]);
    }
  }

  class FrameWriter {
    const config: Config
    var held: Option<Frame>
    var written: nat
    var stable: bool
    var stableCalls: nat
    var stalled: bool
    var inputStalled: bool
    var lastInputAt: int
    var log: seq<Block>

    function View(outcome: Outcome): Writer
      reads this
    {
      Writer(held, written, stable, stableCalls, stalled, inputStalled, lastInputAt, log, outcome)
    }

    constructor (config: Config, now: int, inputStalled: bool)
      ensures this.config == config && View(Running) == Start(now, inputStalled) && Inv(config, View(Running))
    {
      this.config, held, written, stable, stableCalls := config, None, 0, false, 0;
      stalled, this.inputStalled, lastInputAt, log := inputStalled, inputStalled, now, [];
    }

    /** A block reached the encoder. */
    method Note(b: Block)
      modifies this`written, this`stable, this`stableCalls, this`log
      ensures View(Running) == Noted(old(View(Running)), b)
    {
      log := log + [b];
      written := written + 1;
      if !stable && written >= STABLE_FRAMES {
        stable := true;
        stableCalls := stableCalls + 1;
      }
    }

    method WriteCamera(f: Frame, floor: nat, now: int, writeOk: bool) returns (outcome: Outcome)
      modifies this
      ensures View(outcome) == CameraWritten(config, old(View(Running)), f, floor, now, writeOk)
    {
      if ResolutionChanged(f, config.width, config.height) {
        return Mismatch(f);
      }
      if !ValidFrame(config.format, f) || f.generation < floor {
        return Running;
      }
      if !writeOk {
        return Failed;
      }
      Note(Fresh(f, now, floor));
      held := Some(f);
      if stalled {
        stalled := false;
        inputStalled := false;
      }
      lastInputAt := now;
      outcome := Running;
    }

    method WriteSlate(slateReady: bool, writeOk: bool) returns (outcome: Outcome)
      modifies this
      ensures View(outcome) == SlateWritten(old(View(Running)), slateReady, writeOk)
    {
      if !slateReady || !writeOk {
        return Failed;
      }
      Note(Slate);
      held := None;
      outcome := Running;
    }

    method FillGap(floor: nat, now: int, slateReady: bool, writeOk: bool) returns (outcome: Outcome)
      modifies this
      ensures View(outcome) == GapFilled(config, old(View(Running)), floor, now, slateReady, writeOk)
    {
      hide Noted;
      var gap := now - lastInputAt;
      if gap < config.gapFillAfter {
        return Running;
      }
      if !stalled {
        stalled := true;
        inputStalled := true;
      }
      if held.Some? && gap < config.freezeMax && Holdable(held.value.generation, floor) {
        if !writeOk {
          return Failed;
        }
        Note(Repeat(held.value, now, floor));
        outcome := Running;
      } else {
        outcome := WriteSlate(slateReady, writeOk);
      }
    }

    method Take(t: Turn) returns (outcome: Outcome)
      modifies this
      ensures View(outcome) == Step(config, old(View(Running)), t)
    {
      hide CameraWritten, SlateWritten, GapFilled;
      outcome := Running;
      match t {
        case Stop => outcome := Cancelled;
        case Input(f, slateWanted, floor, now, writeOk) =>
          if slateWanted {
            if ResolutionChanged(f, config.width, config.height) {
              outcome := Mismatch(f);
            }
          } else {
            outcome := WriteCamera(f, floor, now, writeOk);
          }
        case Tick(slateWanted, floor, now, slateReady, writeOk) =>
          if slateWanted {
            outcome := WriteSlate(slateReady, writeOk);
          } else {
            outcome := FillGap(floor, now, slateReady, writeOk);
          }
      }
    }

    /** The pending frames first, then whatever the loop receives, until it has to stop or nothing more has arrived. */
    method WriteFrames(pending: seq<Turn>, arrivals: seq<Turn>) returns (outcome: Outcome)
      requires Inv(config, View(Running))
      requires forall i :: 0 <= i < |pending| ==> pending[i].Input?
      modifies this
      ensures View(outcome) == Run(config, old(View(Running)), pending + arrivals)
      ensures Inv(config, View(outcome))
    {
      hide Step, Inv;
      var turns := pending + arrivals;
      ghost var start := View(Running);
      RunIsSafe(config, start, turns);
      var i := 0;
      outcome := Running;
      assert turns[0..] == turns;
      while i < |turns| && outcome.Running?
        invariant 0 <= i <= |turns|
        invariant Run(config, View(outcome), turns[i..]) == Run(config, start, turns)
      {
        assert turns[i..][0] == turns[i] && turns[i..][1..] == turns[i + 1..];
        outcome := Take(turns[i]);
        i := i + 1;
      }
      if !outcome.Running? {
        FinishedStays(config, View(outcome), turns[i..]);
      }
    }
  }

  /** The lowest generation the writer still accepts, raised by compare-and-swap from several goroutines. */
  class HeldFloor {
    var minHeldGeneration: nat

    constructor ()
      ensures minHeldGeneration == 0
    {
      minHeldGeneration := 0;
    }

    /** Raises the floor while other calls, with the generations `others`, may each strike between a load and the swap that
        follows it.  However they fall, the floor ends at the highest generation that any of them asked for. */
    method InvalidateHeldFrame(generation: nat, others: seq<nat>) returns (met: nat)
      modifies this
      ensures met <= |others|
      ensures minHeldGeneration >= generation && minHeldGeneration >= old(minHeldGeneration)
      ensures forall i :: 0 <= i < met ==> minHeldGeneration >= others[i]
      ensures minHeldGeneration in [old(minHeldGeneration), generation] + others[..met]
    {
      met := 0;
      while true
        invariant 0 <= met <= |others| && minHeldGeneration >= old(minHeldGeneration)
        invariant forall i :: 0 <= i < met ==> minHeldGeneration >= others[i]
        invariant minHeldGeneration == old(minHeldGeneration) || minHeldGeneration in others[..met]
        decreases |others| - met
      {
        var current := minHeldGeneration;
        if met < |others| {
          if others[met] > minHeldGeneration {
            minHeldGeneration := others[met];
          }
          assert others[..met + 1] == others[..met] + [others[met]];
          met := met + 1;
        }
        if generation <= current {
          return;
        }
        if minHeldGeneration == current {
          minHeldGeneration := generation;
          return;
        }
      }
    }
  }
}
