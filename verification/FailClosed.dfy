/** The fail-closed latch of internal/media/processor.go in real mode: what leaves the processor when the AI boundary
    answers, times out, is cancelled or fails, over any run of frames. */
module FailClosed {
  import opened Basics
  import opened EgressWriter

  datatype Policy = BlackoutLatch | Freeze

  datatype Latching = Latching(format: WireFormat, policy: Policy, threshold: nat, interval: int)

  datatype Response = Response(timestamp: int, errorCode: string, status: string, data: seq<Byte>)

  /** What the call itself brought back: a response, or an error of the transport. */
  datatype Outcome = Answered(response: Response) | DeadlineExceeded | Cancelled | Broken

  /** What a call to the AI came to: data for this very frame, a deadline passed, a request the server cancelled itself, or
      any other failure. */
  datatype Reply = Success(data: seq<Byte>) | Timeout | Cancellation | Failure

  /** What may leave the processor. */
  datatype Picture =
    | FromAI(data: seq<Byte>)
    | Blur(width: nat, height: nat)
    | BlackRaw(bytes: seq<Byte>)
    | BlackJpeg(width: nat, height: nat)
    | Untouched(data: seq<Byte>)

  datatype Latch = Latch(
    fallback: bool, timeouts: nat, lastProbeAt: int,
    black: Option<Picture>, blackWidth: nat, blackHeight: nat)

  /** One frame, sent under `timestamp`.  `checkedAt` is when the probe interval is looked at, `calledAt` when the AI is called and `doneAt` when it
      has answered; `decoded` is the size found in a JPEG header. */
  datatype Call = Call(data: seq<Byte>, width: nat, height: nat, timestamp: int, checkedAt: int, calledAt: int, doneAt: int,
                       outcome: Outcome, decoded: Option<(nat, nat)>)

  datatype Result = Result(latch: Latch, picture: Option<Picture>, called: bool)

  const INFERENCE_TIMEOUT := "INFERENCE_TIMEOUT"

  /** The letters of "success" under simple case folding, in which the long s counts as an s. */
  predicate Folds(c: char, lower: char) {
    || c == lower
    || ('a' <= lower <= 'z' && c as int == lower as int - 32)
    || (lower == 's' && c as int == 0x17F)
  }

  predicate SaysSuccess(status: string) {
    |status| == 7 && forall i :: 0 <= i < 7 ==> Folds(status[i], "success"[i])
  }

  /** A response counts as AI data only if it answers this frame, reports no error, says success and is not empty. */
  function Judged(sent: int, outcome: Outcome): (r: Reply)
    ensures r.Success? <==>
              && outcome.Answered? && outcome.response.timestamp == sent && outcome.response.errorCode == ""
              && SaysSuccess(outcome.response.status) && outcome.response.data != []
    ensures r.Success? ==> r.data == outcome.response.data
  {
    match outcome
    case DeadlineExceeded => Timeout
    case Cancelled => Cancellation
    case Broken => Failure
    case Answered(response) =>
      if response.timestamp != sent then Failure
      else if response.errorCode != "" then if response.errorCode == INFERENCE_TIMEOUT then Timeout else Failure
      else if !SaysSuccess(response.status) then Failure
      else if response.data == [] then Failure
      else Success(response.data)
  }

  function Heard(call: Call): Reply { Judged(call.timestamp, call.outcome) }

  // ---------- What a call comes to, without the verdict ----------

  /** A reply to this very frame, without error, that says success and brings a picture. */
  predicate Succeeded(sent: int, o: Outcome) {
    && o.Answered? && o.response.timestamp == sent && o.response.errorCode == ""
    && SaysSuccess(o.response.status) && o.response.data != []
  }

  /** A passed deadline, ours or the one the AI reports for this very frame. */
  predicate TimedOut(sent: int, o: Outcome) {
    o.DeadlineExceeded? || (o.Answered? && o.response.timestamp == sent && o.response.errorCode == "INFERENCE_TIMEOUT")
  }

  /** A broken transport, a reply to another frame, any other error, a status that is not success, or no picture. */
  predicate Failed(sent: int, o: Outcome) {
    || o.Broken?
    || (&& o.Answered?
        && (|| o.response.timestamp != sent
            || (o.response.errorCode != "" && o.response.errorCode != "INFERENCE_TIMEOUT")
            || (o.response.errorCode == "" && (!SaysSuccess(o.response.status) || o.response.data == []))))
  }

  /** The verdict is one of these three, or a cancellation, which is none of them. */
  lemma JudgedExactly(sent: int, o: Outcome)
    ensures Judged(sent, o).Success? <==> Succeeded(sent, o)
    ensures Judged(sent, o).Timeout? <==> TimedOut(sent, o)
    ensures Judged(sent, o).Failure? <==> Failed(sent, o)
    ensures Judged(sent, o).Cancellation? <==> o.Cancelled?
    ensures Succeeded(sent, o) ==> Judged(sent, o).data == o.response.data
  {
  }

  /** Success in any case, long s included, and no other word. */
  lemma SuccessByLetters(status: string)
    ensures SaysSuccess(status) <==>
            && |status| == 7
            && (forall i :: i in {0, 5, 6} ==> status[i] in ['s', 'S', 0x17F as char])
            && status[1] in ['u', 'U'] && status[2] in ['c', 'C'] && status[3] in ['c', 'C'] && status[4] in ['e', 'E']
  {
    if |status| == 7 {
      var word := "success";
      assert word[0] == 's' && word[1] == 'u' && word[2] == 'c' && word[3] == 'c' && word[4] == 'e' && word[5] == 's' && word[6] == 's';
      assert SaysSuccess(status) <==>
             Folds(status[0], 's') && Folds(status[1], 'u') && Folds(status[2], 'c') && Folds(status[3], 'c') &&
             Folds(status[4], 'e') && Folds(status[5], 's') && Folds(status[6], 's');
    }
  }

  function Unlatched(): Latch { Latch(false, 0, 0, None, 0, 0) }

  // ---------- Blackout frames ----------

  function BlackBytes(width: nat, height: nat): (r: seq<Byte>)
    ensures |r| == RawFrameSize(width, height)
  {
    seq(width * height, _ => 0x10) + seq(2 * ((width + 1) / 2) * ((height + 1) / 2), _ => 0x80)
  }

  /** The cached black frame, rebuilt when the dimensions differ.  The new dimensions are recorded before the frame is
      built, so they stay recorded when it cannot be. */
  function Blackout(l: Latch, format: WireFormat, decoded: Option<(nat, nat)>, width: nat, height: nat): (Latch, Option<Picture>) {
    if l.black.Some? && l.blackWidth == width && l.blackHeight == height then (l, l.black)
    else
      var l1 := l.(blackWidth := width, blackHeight := height);
      if format.Raw? then
        if RawFrameSize(width, height) == 0 then (l1, None)
        else (l1.(black := Some(BlackRaw(BlackBytes(width, height)))), Some(BlackRaw(BlackBytes(width, height))))
      else
        var target := if decoded.Some? then decoded.value else (width, height);
        if target.0 == 0 || target.1 == 0 then (l1, None)
        else (l1.(black := Some(BlackJpeg(target.0, target.1))), Some(BlackJpeg(target.0, target.1)))
  }

  predicate Blurs(format: WireFormat, data: seq<Byte>, width: nat, height: nat) {
    format.Raw? && RawFrameSize(width, height) > 0 && |data| == RawFrameSize(width, height)
  }

  /** Blur where a raw frame of the right size allows it, black otherwise, nothing when neither can be made. */
  function Served(l: Latch, c: Latching, call: Call): (Latch, Option<Picture>) {
    if Blurs(c.format, call.data, call.width, call.height) then (l, Some(Blur(call.width, call.height)))
    else Blackout(l, c.format, call.decoded, call.width, call.height)
  }

  function ServedResult(l: Latch, c: Latching, call: Call, called: bool): Result {
    Result(Served(l, c, call).0, Served(l, c, call).1, called)
  }

  // ---------- One frame ----------

  function Processed(c: Latching, l: Latch, call: Call): Result {
    if l.fallback then
      if call.checkedAt - l.lastProbeAt < c.interval then ServedResult(l, c, call, false)
      else
        var l1 := l.(lastProbeAt := call.calledAt);
        if Heard(call).Success? then Result(l1.(fallback := false, timeouts := 0), Some(FromAI(Heard(call).data)), true)
        else ServedResult(l1, c, call, true)
    else
      match Heard(call)
      case Success(data) => Result(l.(timeouts := 0), Some(FromAI(data)), true)
      case Cancellation => Result(l, None, true)
      case Timeout =>
        if c.policy.Freeze? then Result(l, None, true)
        else if l.timeouts + 1 <= c.threshold then ServedResult(l.(timeouts := l.timeouts + 1), c, call, true)
        else ServedResult(l.(timeouts := l.timeouts + 1, fallback := true, lastProbeAt := call.doneAt), c, call, true)
      case Failure =>
        if c.policy.Freeze? then Result(l, None, true)
        else ServedResult(l.(timeouts := 0, fallback := true, lastProbeAt := call.doneAt), c, call, true)
  }

  /** A call to the AI: when, whether the latch was on, what was sent and what came back. */
  datatype Asked = Asked(at: int, probe: bool, sent: int, outcome: Outcome)

  function Asks(c: Latching, l: Latch, call: Call): seq<Asked> {
    if Processed(c, l, call).called then [Asked(call.calledAt, l.fallback, call.timestamp, call.outcome)] else []
  }

  function After(c: Latching, l: Latch, calls: seq<Call>): Latch
    decreases |calls|
  {
    if calls == [] then l else After(c, Processed(c, l, calls[0]).latch, calls[1..])
  }

  function AllAsks(c: Latching, l: Latch, calls: seq<Call>): seq<Asked>
    decreases |calls|
  {
    if calls == [] then [] else Asks(c, l, calls[0]) + AllAsks(c, Processed(c, l, calls[0]).latch, calls[1..])
  }

  // ---------- The latch as a function of history ----------

  function Timeouts(asked: seq<Asked>): nat {
    if asked == [] then 0 else Timeouts(asked[..|asked| - 1]) + if TimedOut(asked[|asked| - 1].sent, asked[|asked| - 1].outcome) then 1 else 0
  }

  /** The replies since the AI last succeeded. */
  function SinceSuccess(asked: seq<Asked>): seq<Asked> {
    if asked == [] then []
    else if Succeeded(asked[|asked| - 1].sent, asked[|asked| - 1].outcome) then []
    else SinceSuccess(asked[..|asked| - 1]) + [asked[|asked| - 1]]
  }

  predicate AnyFailure(asked: seq<Asked>) { exists i :: 0 <= i < |asked| && Failed(asked[i].sent, asked[i].outcome) }

  /** The rule in the words of the design: since the last success, a definite failure, or too many timeouts. */
  predicate ShouldLatch(c: Latching, asked: seq<Asked>) {
    AnyFailure(SinceSuccess(asked)) || Timeouts(SinceSuccess(asked)) > c.threshold
  }

  /** The latch is on exactly when the rule says so, and off it counts the timeouts of the rule. */
  ghost predicate Tracks(c: Latching, l: Latch, asked: seq<Asked>) {
    && (l.fallback <==> ShouldLatch(c, asked))
    && (!l.fallback ==> l.timeouts == Timeouts(SinceSuccess(asked)))
  }

  lemma OneMore(asked: seq<Asked>, a: Asked)
    ensures SinceSuccess(asked + [a]) == if Succeeded(a.sent, a.outcome) then [] else SinceSuccess(asked) + [a]
    ensures !Succeeded(a.sent, a.outcome) ==>
              && Timeouts(SinceSuccess(asked + [a])) == Timeouts(SinceSuccess(asked)) + (if TimedOut(a.sent, a.outcome) then 1 else 0)
              && (AnyFailure(SinceSuccess(asked + [a])) <==> AnyFailure(SinceSuccess(asked)) || Failed(a.sent, a.outcome))
  {
    assert (asked + [a])[..|asked|] == asked;
    var since := SinceSuccess(asked);
    assert (since + [a])[..|since|] == since;
    assert AnyFailure(since + [a]) <==> AnyFailure(since) || Failed(a.sent, a.outcome) by {
      if Failed(a.sent, a.outcome) { assert Failed((since + [a])[|since|].sent, (since + [a])[|since|].outcome); }
      if AnyFailure(since) {
        var i :| 0 <= i < |since| && Failed(since[i].sent, since[i].outcome);
        assert Failed((since + [a])[i].sent, (since + [a])[i].outcome);
      }
    }
  }

  lemma CallTracks(c: Latching, l: Latch, call: Call, asked: seq<Asked>)
    requires c.policy.BlackoutLatch? && Tracks(c, l, asked)
    ensures Tracks(c, Processed(c, l, call).latch, asked + Asks(c, l, call))
  {
    hide AnyFailure, Timeouts, SinceSuccess, Blackout, Blurs, Judged, Succeeded, TimedOut, Failed;
    JudgedExactly(call.timestamp, call.outcome);
    var now := Asked(call.calledAt, l.fallback, call.timestamp, call.outcome);
    OneMore(asked, now);
    ServedKeepsLatch(l, c, call);
    assert asked + [] == asked;
    assert Timeouts([]) == 0 && !AnyFailure([]) by { NoneYet(); }
    LatchFlags(c, l, call);
    hide Processed;
  }

  lemma NoneYet()
    ensures Timeouts([]) == 0 && !AnyFailure([])
  {
  }

  /** Serving a substitute frame touches only the cached black frame. */
  lemma ServedKeepsLatch(l: Latch, c: Latching, call: Call)
    ensures var l' := Served(l, c, call).0;
            l'.fallback == l.fallback && l'.timeouts == l.timeouts && l'.lastProbeAt == l.lastProbeAt
  {
    hide RawFrameSize, BlackBytes;
  }

  lemma LatchFlags(c: Latching, l: Latch, call: Call)
    requires c.policy.BlackoutLatch?
    ensures var r := Processed(c, l, call);
            && (r.called <==> !l.fallback || call.checkedAt - l.lastProbeAt >= c.interval)
            && (r.latch.fallback <==>
                  if !r.called then true
                  else if l.fallback then !Heard(call).Success?
                  else Heard(call).Failure? || (Heard(call).Timeout? && l.timeouts >= c.threshold))
            && (!r.latch.fallback ==>
                  r.latch.timeouts == if Heard(call).Success? then 0
                                      else if Heard(call).Timeout? then l.timeouts + 1 else l.timeouts)
            && (r.latch.fallback ==>
                  r.latch.lastProbeAt == if !r.called then l.lastProbeAt
                                         else if l.fallback then call.calledAt else call.doneAt)
  {
    hide Served;
    ServedKeepsLatch(l, c, call);
    ServedKeepsLatch(l.(lastProbeAt := call.calledAt), c, call);
    ServedKeepsLatch(l.(timeouts := l.timeouts + 1), c, call);
    ServedKeepsLatch(l.(timeouts := l.timeouts + 1, fallback := true, lastProbeAt := call.doneAt), c, call);
    ServedKeepsLatch(l.(timeouts := 0, fallback := true, lastProbeAt := call.doneAt), c, call);
  }

  /** Main theorem: over every run of frames the latch is the stated function of the AI's replies. */
  lemma {:induction false} LatchFollowsHistory(c: Latching, l: Latch, calls: seq<Call>, asked: seq<Asked>)
    requires c.policy.BlackoutLatch? && Tracks(c, l, asked)
    ensures Tracks(c, After(c, l, calls), asked + AllAsks(c, l, calls))
    decreases |calls|
  {
    hide Tracks, Processed, Asks;
    if calls == [] {
      assert asked + AllAsks(c, l, calls) == asked;
    } else {
      CallTracks(c, l, calls[0], asked);
      var l1 := Processed(c, l, calls[0]).latch;
      LatchFollowsHistory(c, l1, calls[1..], asked + Asks(c, l, calls[0]));
      assert asked + Asks(c, l, calls[0]) + AllAsks(c, l1, calls[1..]) == asked + AllAsks(c, l, calls);
    }
  }

  /** Under the freeze policy nothing ever latches: a frame without AI data brings no picture, and that is all. */
  lemma {:induction false} FreezeNeverLatches(c: Latching, l: Latch, calls: seq<Call>)
    requires c.policy.Freeze? && !l.fallback
    ensures !After(c, l, calls).fallback
    ensures calls != [] ==>
              var r := Processed(c, l, calls[0]);
              r.called && (r.picture.Some? <==> Succeeded(calls[0].timestamp, calls[0].outcome))
    decreases |calls|
  {
    if calls != [] {
      JudgedExactly(calls[0].timestamp, calls[0].outcome);
      hide Judged, Succeeded, TimedOut, Failed;
      FreezeNeverLatches(c, Processed(c, l, calls[0]).latch, calls[1..]);
    }
  }

  // ---------- Probing ----------

  /** Clocks never run backwards within a frame or from one frame to the next. */
  predicate InOrder(calls: seq<Call>, since: int) {
    && (forall i :: 0 <= i < |calls| ==> since <= calls[i].checkedAt <= calls[i].calledAt <= calls[i].doneAt)
    && (forall i, j :: 0 <= i < j < |calls| ==> calls[i].doneAt <= calls[j].checkedAt)
  }

  /** Everything asked so far is no later than `until`, and no later than the last probe while the latch is on. */
  ghost predicate Spaced(c: Latching, l: Latch, asked: seq<Asked>, until: int) {
    && (forall i :: 0 <= i < |asked| ==> asked[i].at <= until && (l.fallback ==> asked[i].at <= l.lastProbeAt))
    && (forall i, j :: 0 <= i < j < |asked| && asked[j].probe ==> asked[j].at - asked[i].at >= c.interval)
  }

  lemma CallSpaced(c: Latching, l: Latch, call: Call, asked: seq<Asked>, until: int)
    requires c.policy.BlackoutLatch? && Spaced(c, l, asked, until)
    requires until <= call.checkedAt <= call.calledAt <= call.doneAt
    ensures Spaced(c, Processed(c, l, call).latch, asked + Asks(c, l, call), call.doneAt)
  {
    LatchFlags(c, l, call);
    hide Processed;
  }

  /** While the latch is on, a call to the AI comes at least one interval after every earlier call, whatever the run. */
  lemma {:induction false} ProbesAreSpaced(c: Latching, l: Latch, calls: seq<Call>, asked: seq<Asked>, until: int)
    requires c.policy.BlackoutLatch? && Spaced(c, l, asked, until) && InOrder(calls, until)
    ensures forall i, j :: 0 <= i < j < |asked + AllAsks(c, l, calls)| && (asked + AllAsks(c, l, calls))[j].probe ==>
              (asked + AllAsks(c, l, calls))[j].at - (asked + AllAsks(c, l, calls))[i].at >= c.interval
    decreases |calls|
  {
    hide Processed, Asks;
    if calls == [] {
      assert asked + AllAsks(c, l, calls) == asked;
    } else {
      CallSpaced(c, l, calls[0], asked, until);
      var l1 := Processed(c, l, calls[0]).latch;
      ProbesAreSpaced(c, l1, calls[1..], asked + Asks(c, l, calls[0]), calls[0].doneAt);
      assert asked + Asks(c, l, calls[0]) + AllAsks(c, l1, calls[1..]) == asked + AllAsks(c, l, calls);
    }
  }

  // ---------- What comes out ----------

  /** A cached black frame recorded for real dimensions has exactly their size. */
  ghost predicate CacheOk(c: Latching, l: Latch) {
    l.black.Some? ==>
      if c.format.Jpeg? then l.black.value.BlackJpeg?
      else l.black.value.BlackRaw? &&
           (l.blackWidth > 0 && l.blackHeight > 0 ==> l.black.value.bytes == BlackBytes(l.blackWidth, l.blackHeight))
  }

  /** The substitute for a frame: the whole picture blurred, or black of exactly the frame's raw size. */
  predicate Substitute(p: Picture, width: nat, height: nat) {
    p == Blur(width, height) || (p.BlackRaw? && p.bytes == BlackBytes(width, height))
  }

  /** Raw size vanishes exactly for a zero dimension. */
  lemma RawSizeZero(width: nat, height: nat)
    ensures RawFrameSize(width, height) == 0 <==> width == 0 || height == 0
  {
    if width > 0 && height > 0 {
      assert width * height > 0;
      assert ((width + 1) / 2) * ((height + 1) / 2) >= 0;
      assert 2 * ((width + 1) / 2) * ((height + 1) / 2) == 2 * (((width + 1) / 2) * ((height + 1) / 2));
    } else if width == 0 {
      assert (width + 1) / 2 == 0;
    } else {
      assert (height + 1) / 2 == 0;
    }
  }

  lemma ServedIsSubstitute(c: Latching, l: Latch, call: Call)
    requires CacheOk(c, l)
    ensures CacheOk(c, Served(l, c, call).0)
    ensures Served(l, c, call).1.Some? ==> !Served(l, c, call).1.value.Untouched? && !Served(l, c, call).1.value.FromAI?
    ensures c.format.Raw? && call.width > 0 && call.height > 0 ==>
              Served(l, c, call).1.Some? && Substitute(Served(l, c, call).1.value, call.width, call.height)
  {
    hide RawFrameSize, BlackBytes;
    RawSizeZero(call.width, call.height);
  }

  /** This picture is the data of a successful response to this very frame. */
  predicate AnswersFrame(p: Picture, call: Call) {
    && call.outcome.Answered? && call.outcome.response.timestamp == call.timestamp && call.outcome.response.errorCode == ""
    && SaysSuccess(call.outcome.response.status) && call.outcome.response.data != [] && p == FromAI(call.outcome.response.data)
  }

  /** In any format and under any policy, what leaves is a blur, a black picture or the answer to this frame. */
  lemma OnlyTreatedLeaves(c: Latching, l: Latch, call: Call)
    requires CacheOk(c, l)
    ensures CacheOk(c, Processed(c, l, call).latch)
    ensures var r := Processed(c, l, call);
            r.picture.Some? ==>
              || r.picture.value.Blur? || r.picture.value.BlackRaw? || r.picture.value.BlackJpeg?
              || (r.called && AnswersFrame(r.picture.value, call))
  {
    hide Served, Substitute, BlackBytes;
    ServedIsSubstitute(c, l, call);
    ServedIsSubstitute(c, l.(lastProbeAt := call.calledAt), call);
    ServedIsSubstitute(c, l.(timeouts := l.timeouts + 1), call);
    ServedIsSubstitute(c, l.(timeouts := l.timeouts + 1, fallback := true, lastProbeAt := call.doneAt), call);
    ServedIsSubstitute(c, l.(timeouts := 0, fallback := true, lastProbeAt := call.doneAt), call);
  }

  /** For every frame with real dimensions: what comes out is the data of a successful response to this very frame, or a
      substitute of the right size; and nothing comes out only when the server cancelled the request itself. */
  lemma OutputIsClosed(c: Latching, l: Latch, call: Call)
    requires c.policy.BlackoutLatch? && c.format.Raw? && CacheOk(c, l)
    ensures call.width > 0 && call.height > 0 ==>
              var r := Processed(c, l, call);
              && (r.picture.None? <==> !l.fallback && call.outcome.Cancelled?)
              && (r.picture.Some? ==>
                    || (r.called && AnswersFrame(r.picture.value, call))
                    || Substitute(r.picture.value, call.width, call.height))
  {
    hide Served, Substitute, BlackBytes;
    ServedIsSubstitute(c, l, call);
    ServedIsSubstitute(c, l.(lastProbeAt := call.calledAt), call);
    ServedIsSubstitute(c, l.(timeouts := l.timeouts + 1), call);
    ServedIsSubstitute(c, l.(timeouts := l.timeouts + 1, fallback := true, lastProbeAt := call.doneAt), call);
    ServedIsSubstitute(c, l.(timeouts := 0, fallback := true, lastProbeAt := call.doneAt), call);
  }

  lemma {:induction false} RunKeepsCache(c: Latching, l: Latch, calls: seq<Call>)
    requires CacheOk(c, l)
    ensures CacheOk(c, After(c, l, calls))
    decreases |calls|
  {
    hide Processed, CacheOk;
    if calls != [] {
      OnlyTreatedLeaves(c, l, calls[0]);
      RunKeepsCache(c, Processed(c, l, calls[0]).latch, calls[1..]);
    }
  }

  /** Without real dimensions a substitute comes out exactly when the same zero dimensions were recorded while a black
      frame was cached, and then it is that frame, whatever its size. */
  lemma ZeroDimensionsServeTheCache(c: Latching, l: Latch, call: Call)
    requires c.format.Raw? && CacheOk(c, l) && (call.width == 0 || call.height == 0)
    ensures Served(l, c, call).1.Some? <==> l.black.Some? && l.blackWidth == call.width && l.blackHeight == call.height
    ensures Served(l, c, call).1.Some? ==> Served(l, c, call).1 == l.black
  {
    hide RawFrameSize, BlackBytes;
    RawSizeZero(call.width, call.height);
  }

  /** A failed frame whose data cannot be blurred gets the black frame of its size, which is then cached. */
  lemma SizedFailure(c: Latching, l: Latch, call: Call)
    requires c.format.Raw? && c.policy.BlackoutLatch? && !l.fallback && l.black.None?
    requires call.width > 0 && call.height > 0 && call.data == [] && Heard(call).Failure?
    ensures Processed(c, l, call).latch == Latch(true, 0, call.doneAt, Some(BlackRaw(BlackBytes(call.width, call.height))),
                                                 call.width, call.height)
  {
    RawSizeZero(call.width, call.height);
    hide RawFrameSize, BlackBytes;
  }

  lemma ServedUnsized(c: Latching, l: Latch, call: Call)
    requires c.format.Raw? && call.width == 0 && call.height == 0
    ensures var r := Served(l, c, call);
            && r.0 == l.(blackWidth := 0, blackHeight := 0)
            && r.1 == if l.black.Some? && l.blackWidth == 0 && l.blackHeight == 0 then l.black else None
  {
    RawSizeZero(call.width, call.height);
    hide RawFrameSize, BlackBytes;
  }

  /** A failed frame without dimensions, on a latched session with a cached black frame. */
  lemma UnsizedFailure(c: Latching, l: Latch, call: Call)
    requires c.format.Raw? && c.policy.BlackoutLatch? && l.fallback && l.black.Some?
    requires call.width == call.height == 0 && Heard(call).Failure?
    ensures var r := Processed(c, l, call);
            && r.latch.fallback && r.latch.black == l.black && r.latch.blackWidth == r.latch.blackHeight == 0
            && r.picture == if l.blackWidth == l.blackHeight == 0 then l.black else None
  {
    hide RawFrameSize, BlackBytes, Served;
    ServedUnsized(c, l, call);
    ServedUnsized(c, l.(lastProbeAt := call.calledAt), call);
  }

  /** So the size need not match: once a frame of any real size got a black substitute, the second frame without
      dimensions gets that black frame too. */
  lemma StaleBlackFrame(c: Latching, sized: Call, unsized: Call)
    requires c.format.Raw? && c.policy.BlackoutLatch?
    requires sized.width > 0 && sized.height > 0 && sized.data == [] && Heard(sized).Failure?
    requires unsized.width == unsized.height == 0 && Heard(unsized).Failure?
    ensures var l := Processed(c, Processed(c, Unlatched(), sized).latch, unsized).latch;
            Processed(c, l, unsized).picture == Some(BlackRaw(BlackBytes(sized.width, sized.height)))
    ensures |BlackBytes(sized.width, sized.height)| > 0 && RawFrameSize(unsized.width, unsized.height) == 0
  {
    hide Processed, RawFrameSize;
    RawSizeZero(sized.width, sized.height);
    RawSizeZero(unsized.width, unsized.height);
    SizedFailure(c, Unlatched(), sized);
    var l1 := Processed(c, Unlatched(), sized).latch;
    UnsizedFailure(c, l1, unsized);
    UnsizedFailure(c, Processed(c, l1, unsized).latch, unsized);
  }

  /** Which substitute it is.  A raw frame with real dimensions is blurred if its size is right, and black otherwise; a JPEG is
      never blurred, and its black picture has the size of the header, or else the size given, unless one is cached for the size
      given. */
  lemma SubstituteMeans(c: Latching, l: Latch, call: Call)
    requires CacheOk(c, l)
    ensures var p := Served(l, c, call).1;
            var (width, height) := if call.decoded.Some? then call.decoded.value else (call.width, call.height);
            match c.format
            case Raw =>
              call.width > 0 && call.height > 0 ==>
                p == Some(if |call.data| == RawFrameSize(call.width, call.height) then Blur(call.width, call.height)
                          else BlackRaw(BlackBytes(call.width, call.height)))
            case Jpeg =>
              if l.black.Some? && l.blackWidth == call.width && l.blackHeight == call.height then p == l.black
              else p == if width > 0 && height > 0 then Some(BlackJpeg(width, height)) else None
  {
    hide RawFrameSize, BlackBytes;
    RawSizeZero(call.width, call.height);
  }

  /** What is remembered of it: a black picture that had to be made is cached, and the size asked for is recorded either way. */
  lemma ServedCaches(c: Latching, l: Latch, call: Call)
    ensures var (l', p) := Served(l, c, call);
            var cached := l.black.Some? && l.blackWidth == call.width && l.blackHeight == call.height;
            if cached || (c.format.Raw? && call.width > 0 && call.height > 0 && |call.data| == RawFrameSize(call.width, call.height))
            then l' == l
            else l' == l.(blackWidth := call.width, blackHeight := call.height, black := if p.Some? then p else l.black)
  {
    hide RawFrameSize, BlackBytes;
    RawSizeZero(call.width, call.height);
  }
}
