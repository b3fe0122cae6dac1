/** The processor in the form of the source: an object whose settings, generation, latch and cached black frame change in
    place, frame by frame. */
module Processors {
  import opened Basics
  import opened EgressWriter
  import opened FailClosed
  import opened PrivacyPipeline

  /** The process-wide counter that numbers settings. */
  class Generations {
    var value: nat

    constructor ()
      ensures value == 0
    {
      value := 0;
    }

    method Add() returns (next: nat)
      modifies this
      ensures next == value == old(value) + 1
    {
      value := value + 1;
      next := value;
    }
  }

  /** A black frame byte by byte. */
  lemma PlanesAddUp(width: nat, height: nat)
    ensures 0 <= width * height <= RawFrameSize(width, height) == |BlackBytes(width, height)|
    ensures forall k :: 0 <= k < RawFrameSize(width, height) ==>
              BlackBytes(width, height)[k] == if k < width * height then 0x10 else 0x80
  {
    assert ((width + 1) / 2) * ((height + 1) / 2) >= 0;
    assert 2 * ((width + 1) / 2) * ((height + 1) / 2) == 2 * (((width + 1) / 2) * ((height + 1) / 2));
  }

  datatype Verdict = NotProcessed | Answer(picture: Option<Picture>)

  class Processor {
    const latching: Latching
    const generations: Generations
    var settings: Settings
    var paused: bool
    var generation: nat
    var fallback: bool
    var timeouts: nat
    var lastProbeAt: int
    var black: Option<Picture>
    var blackWidth: nat
    var blackHeight: nat

    function View(): Latch
      reads this
    {
      Latch(fallback, timeouts, lastProbeAt, black, blackWidth, blackHeight)
    }

    ghost predicate Valid()
      reads this, generations
    {
      0 < generation <= generations.value && CacheOk(latching, View())
    }

    constructor (latching: Latching, generations: Generations)
      modifies generations
      ensures this.latching == latching && this.generations == generations && Valid()
      ensures settings == Settings(true, false, 0) && !paused && View() == Unlatched()
      ensures generation == generations.value == old(generations.value) + 1
    {
      this.latching, this.generations := latching, generations;
      settings, paused := Settings(true, false, 0), false;
      fallback, timeouts, lastProbeAt, black, blackWidth, blackHeight := false, 0, 0, None, 0, 0;
      generation := 0;
      new;
      generation := generations.Add();
    }

    /** One setter, from taking the write lock to giving it back: a real change gets a generation larger than any before. */
    method Set(change: Change)
      requires Valid()
      modifies this`settings, this`paused, this`generation, generations
      ensures Valid() && settings == Applied(old(settings), change)
      ensures paused == if change.SetPaused? then change.paused else old(paused)
      ensures if settings == old(settings) then generation == old(generation) && generations.value == old(generations.value)
              else generation == generations.value > old(generations.value)
    {
      if Applied(settings, change) != settings {
        generation := generations.Add();
      }
      settings := Applied(settings, change);
      if change.SetPaused? {
        paused := change.paused;
      }
    }

    /** Fills a raw frame with black: luma 0x10, then chroma 0x80. */
    static method PaintBlack(width: nat, height: nat) returns (bytes: seq<Byte>)
      ensures bytes == BlackBytes(width, height)
    {
      var luma, size := width * height, RawFrameSize(width, height);
      PlanesAddUp(width, height);
      hide RawFrameSize, BlackBytes;
      var buffer := new Byte[size];
      var i := 0;
      while i < luma
        invariant 0 <= i <= luma
        invariant forall k :: 0 <= k < i ==> buffer[k] == 0x10
      {
        buffer[i] := 0x10;
        i := i + 1;
      }
      while i < size
        invariant luma <= i <= size
        invariant forall k :: 0 <= k < luma ==> buffer[k] == 0x10
        invariant forall k :: luma <= k < i ==> buffer[k] == 0x80
      {
        buffer[i] := 0x80;
        i := i + 1;
      }
      bytes := buffer[..];
    }

    method BlackoutFrame(decoded: Option<(nat, nat)>, width: nat, height: nat) returns (picture: Option<Picture>)
      modifies this`black, this`blackWidth, this`blackHeight
      ensures (View(), picture) == Blackout(old(View()), latching.format, decoded, width, height)
    {
      hide RawFrameSize, BlackBytes;
      if black.Some? && blackWidth == width && blackHeight == height {
        return black;
      }
      blackWidth, blackHeight := width, height;
      if latching.format.Raw? {
        if RawFrameSize(width, height) == 0 {
          return None;
        }
        var bytes := PaintBlack(width, height);
        black := Some(BlackRaw(bytes));
        return black;
      }
      var targetWidth, targetHeight := width, height;
      if decoded.Some? {
        targetWidth, targetHeight := decoded.value.0, decoded.value.1;
      }
      if targetWidth == 0 || targetHeight == 0 {
        return None;
      }
      black := Some(BlackJpeg(targetWidth, targetHeight));
      picture := black;
    }

    method ServeBlackout(call: Call) returns (picture: Option<Picture>)
      modifies this`black, this`blackWidth, this`blackHeight
      ensures (View(), picture) == Served(old(View()), latching, call)
    {
      hide RawFrameSize, Blackout;
      if Blurs(latching.format, call.data, call.width, call.height) {
        return Some(Blur(call.width, call.height));
      }
      picture := BlackoutFrame(call.decoded, call.width, call.height);
    }

    /** The checks on a response, in the order of the source. */
    method ProcessImage(call: Call) returns (reply: Reply)
      ensures reply == Heard(call)
    {
      match call.outcome
      case DeadlineExceeded => return Timeout;
      case Cancelled => return Cancellation;
      case Broken => return Failure;
      case Answered(response) =>
        if response.timestamp != call.timestamp {
          return Failure;
        }
        if response.errorCode != "" {
          return if response.errorCode == INFERENCE_TIMEOUT then Timeout else Failure;
        }
        if !SaysSuccess(response.status) || |response.data| == 0 {
          return Failure;
        }
        return Success(response.data);
    }

    /** Whether the AI is called is decided here, so the outcome counts only when `called`. */
    method Process(call: Call) returns (picture: Option<Picture>, called: bool)
      modifies this`fallback, this`timeouts, this`lastProbeAt, this`black, this`blackWidth, this`blackHeight
      ensures Result(View(), picture, called) == Processed(latching, old(View()), call)
    {
      hide Served, Heard;
      if fallback {
        if call.checkedAt - lastProbeAt < latching.interval {
          picture := ServeBlackout(call);
          return picture, false;
        }
        lastProbeAt := call.calledAt;
        var probed := ProcessImage(call);
        if !probed.Success? {
          picture := ServeBlackout(call);
          return picture, true;
        }
        fallback := false;
        timeouts := 0;
        return Some(FromAI(probed.data)), true;
      }
      called := true;
      var reply := ProcessImage(call);
      if reply.Success? {
        timeouts := 0;
        return Some(FromAI(reply.data)), true;
      }
      if reply.Cancellation? || latching.policy.Freeze? {
        return None, true;
      }
      if reply.Timeout? {
        timeouts := timeouts + 1;
        if timeouts <= latching.threshold {
          picture := ServeBlackout(call);
          return picture, true;
        }
      } else {
        timeouts := 0;
      }
      fallback := true;
      lastProbeAt := call.doneAt;
      picture := ServeBlackout(call);
    }

    method ScreenBlur(call: Call) returns (picture: Option<Picture>)
      requires Valid()
      modifies this`black, this`blackWidth, this`blackHeight
      ensures Valid()
      ensures picture.Some? ==> !picture.value.Untouched? && !picture.value.FromAI?
      ensures latching.format.Raw? && call.width > 0 && call.height > 0 ==>
                picture.Some? && Substitute(picture.value, call.width, call.height)
      ensures fallback == old(fallback) && timeouts == old(timeouts)
    {
      hide Substitute;
      ServedIsSubstitute(latching, View(), call);
      ServedKeepsLatch(View(), latching, call);
      picture := ServeBlackout(call);
    }

    /** The whole path of a frame under the read lock. */
    method ProcessIfAIInputEnabled(call: Call) returns (verdict: Verdict, called: bool)
      requires Valid()
      modifies this`fallback, this`timeouts, this`lastProbeAt, this`black, this`blackWidth, this`blackHeight
      ensures Valid()
      ensures verdict.NotProcessed? <==> paused
      ensures !paused && !settings.blur && !settings.anonymize ==> verdict == Answer(Some(Untouched(call.data)))
      ensures !paused && TreatmentUnder(settings) != Original && verdict.picture.Some? ==> !verdict.picture.value.Untouched?
      ensures !paused && settings.blur && latching.format.Raw? && call.width > 0 && call.height > 0 ==>
                verdict.picture.Some? && Substitute(verdict.picture.value, call.width, call.height)
      ensures !paused && !settings.blur && settings.anonymize ==>
                Result(View(), verdict.picture, called) == Processed(latching, old(View()), call)
      ensures called ==> !paused && TreatmentUnder(settings).Anonymized?
    {
      hide Substitute, Served, Processed;
      called := false;
      if paused {
        return NotProcessed, false;
      }
      var picture: Option<Picture>;
      if settings.blur {
        picture := ScreenBlur(call);
        return Answer(picture), false;
      }
      if !settings.anonymize {
        return Answer(Some(Untouched(call.data))), false;
      }
      ghost var before := View();
      picture, called := Process(call);
      verdict := Answer(picture);
      OnlyTreatedLeaves(latching, before, call);
    }
  }
}
