/** The loop that feeds frames to the encoder (writeFrames in internal/media/egress.go), one turn at a time.

    A turn reads everything it depends on (the frame or tick, whether a slate is wanted, the lowest generation still
    allowed, the clock, whether the write worked), so a run is a list of turns and any interleaving with the rest of the
    server is some list. */
module EgressWriter {
  import opened Basics

  datatype WireFormat = Raw | Jpeg

  /** The id only identifies the frame; the code never reads it. */
  datatype Frame = Frame(id: nat, data: seq<Byte>, width: nat, height: nat, generation: nat)

  datatype Config = Config(format: WireFormat, width: nat, height: nat, gapFillAfter: int, freezeMax: int)

  /** Written blocks that count towards a stable connection. */
  const STABLE_FRAMES: nat := 300

  /** What reached the encoder: a slate, a camera frame, or a camera frame once more.  `floor` is the lowest generation
      allowed when the turn looked, `at` the turn's clock. */
  datatype Block = Slate | Fresh(frame: Frame, at: int, floor: nat) | Repeat(frame: Frame, at: int, floor: nat)

  datatype Outcome = Running | Mismatch(frame: Frame) | Failed | Cancelled

  datatype Writer = Writer(
    held: Option<Frame>, written: nat, stable: bool, stableCalls: nat,
    stalled: bool, inputStalled: bool, lastInputAt: int, log: seq<Block>, outcome: Outcome)

  datatype Turn =
    | Input(frame: Frame, slateWanted: bool, floor: nat, now: int, writeOk: bool)
    | Tick(slateWanted: bool, floor: nat, now: int, slateReady: bool, writeOk: bool)
    | Stop

  function Start(now: int, inputStalled: bool): Writer {
    Writer(None, 0, false, 0, inputStalled, inputStalled, now, [], Running)
  }

  /** Bytes of one yuv420p frame; chroma planes round odd sizes up. */
  function RawFrameSize(width: nat, height: nat): nat {
    width * height + 2 * ((width + 1) / 2) * ((height + 1) / 2)
  }

  predicate IsJpeg(data: seq<Byte>) {
    |data| >= 4 && data[0] == 0xff && data[1] == 0xd8 && data[|data| - 2] == 0xff && data[|data| - 1] == 0xd9
  }

  predicate ValidFrame(format: WireFormat, f: Frame) {
    if format.Raw? then |f.data| == RawFrameSize(f.width, f.height) else IsJpeg(f.data)
  }

  /** A frame without a known resolution is never a change of resolution. */
  predicate ResolutionChanged(f: Frame, width: nat, height: nat) {
    f.width != 0 && f.height != 0 && (f.width != width || f.height != height)
  }

  predicate Holdable(generation: nat, floor: nat) { generation != 0 && generation >= floor }

  // ---------- One turn ----------

  function Noted(w: Writer, b: Block): Writer {
    var n := w.written + 1;
    if !w.stable && n >= STABLE_FRAMES
    then w.(written := n, log := w.log + [b], stable := true, stableCalls := w.stableCalls + 1)
    else w.(written := n, log := w.log + [b])
  }

  function CameraWritten(c: Config, w: Writer, f: Frame, floor: nat, now: int, writeOk: bool): Writer {
    if ResolutionChanged(f, c.width, c.height) then w.(outcome := Mismatch(f))
    else if !ValidFrame(c.format, f) || f.generation < floor then w
    else if !writeOk then w.(outcome := Failed)
    else Noted(w, Fresh(f, now, floor)).(held := Some(f), stalled := false,
                                         inputStalled := if w.stalled then false else w.inputStalled, lastInputAt := now)
  }

  function SlateWritten(w: Writer, slateReady: bool, writeOk: bool): Writer {
    if !slateReady || !writeOk then w.(outcome := Failed) else Noted(w, Slate).(held := None)
  }

  function GapFilled(c: Config, w: Writer, floor: nat, now: int, slateReady: bool, writeOk: bool): Writer {
    var gap := now - w.lastInputAt;
    if gap < c.gapFillAfter then w
    else
      var v := if w.stalled then w else w.(stalled := true, inputStalled := true);
      if v.held.Some? && gap < c.freezeMax && Holdable(v.held.value.generation, floor)
      then if writeOk then Noted(v, Repeat(v.held.value, now, floor)) else v.(outcome := Failed)
      else SlateWritten(v, slateReady, writeOk)
  }

  function Step(c: Config, w: Writer, t: Turn): Writer {
    if !w.outcome.Running? then w
    else
      match t
      case Stop => w.(outcome := Cancelled)
      case Input(f, slateWanted, floor, now, writeOk) =>
        if slateWanted
        then (if ResolutionChanged(f, c.width, c.height) then w.(outcome := Mismatch(f)) else w)
        else CameraWritten(c, w, f, floor, now, writeOk)
      case Tick(slateWanted, floor, now, slateReady, writeOk) =>
        if slateWanted then SlateWritten(w, slateReady, writeOk)
        else GapFilled(c, w, floor, now, slateReady, writeOk)
  }

  function Run(c: Config, w: Writer, turns: seq<Turn>): Writer
    decreases |turns|
  {
    if turns == [] then w else Run(c, Step(c, w, turns[0]), turns[1..])
  }

  // ---------- What a log may contain ----------

  /** The camera frame on screen: the last one written, unless a slate was shown after it. */
  function LastShown(log: seq<Block>): Option<Block>
    decreases |log|
  {
    if log == [] then None
    else
      match log[|log| - 1]
      case Slate => None
      case Fresh(_, _, _) => Some(log[|log| - 1])
      case Repeat(_, _, _) => LastShown(log[..|log| - 1])
  }

  /** What may follow a log.  A camera frame must fit the encoder and be recent enough; a repeat must be exactly the frame
      on screen, of a generation that may be held, after a gap that is long enough but not too long. */
  predicate MayFollow(c: Config, log: seq<Block>, b: Block) {
    match b
    case Slate => true
    case Fresh(f, at, floor) =>
      !ResolutionChanged(f, c.width, c.height) && ValidFrame(c.format, f) && f.generation >= floor
    case Repeat(f, at, floor) =>
      && LastShown(log).Some? && LastShown(log).value.Fresh? && LastShown(log).value.frame == f
      && c.gapFillAfter <= at - LastShown(log).value.at < c.freezeMax
      && Holdable(f.generation, floor)
  }

  ghost predicate SafeLog(c: Config, log: seq<Block>) {
    forall i :: 0 <= i < |log| ==> MayFollow(c, log[..i], log[i])
  }

  ghost predicate Inv(c: Config, w: Writer) {
    && SafeLog(c, w.log)
    && w.written == |w.log|
    && w.stable == (|w.log| >= STABLE_FRAMES) && w.stableCalls == (if w.stable then 1 else 0)
    && w.stalled == w.inputStalled
    && w.held == (if LastShown(w.log).Some? then Some(LastShown(w.log).value.frame) else None)
    && (LastShown(w.log).Some? ==> LastShown(w.log).value.Fresh? && LastShown(w.log).value.at == w.lastInputAt)
  }

  lemma NotedKeeps(c: Config, w: Writer, b: Block)
    requires SafeLog(c, w.log) && MayFollow(c, w.log, b)
    ensures SafeLog(c, Noted(w, b).log)
    ensures LastShown(w.log + [b]) == if b.Slate? then None else if b.Fresh? then Some(b) else LastShown(w.log)
  {
    var log := w.log + [b];
    assert log[..|w.log|] == w.log;
    forall i | 0 <= i < |log|
      ensures MayFollow(c, log[..i], log[i])
    {
      if i < |w.log| {
        assert log[..i] == w.log[..i];
      }
    }
  }

  lemma CameraKeepsInv(c: Config, w: Writer, f: Frame, floor: nat, now: int, writeOk: bool)
    requires Inv(c, w)
    ensures Inv(c, CameraWritten(c, w, f, floor, now, writeOk))
  {
    hide SafeLog, ValidFrame, LastShown, ResolutionChanged;
    var b := Fresh(f, now, floor);
    if MayFollow(c, w.log, b) {
      NotedKeeps(c, w, b);
    }
  }

  lemma SlateKeepsInv(c: Config, w: Writer, slateReady: bool, writeOk: bool)
    requires Inv(c, w)
    ensures Inv(c, SlateWritten(w, slateReady, writeOk))
  {
    hide SafeLog, LastShown;
    NotedKeeps(c, w, Slate);
  }

  lemma GapKeepsInv(c: Config, w: Writer, floor: nat, now: int, slateReady: bool, writeOk: bool)
    requires Inv(c, w)
    ensures Inv(c, GapFilled(c, w, floor, now, slateReady, writeOk))
  {
    hide SafeLog, LastShown, SlateWritten;
    var v := if w.stalled then w else w.(stalled := true, inputStalled := true);
    SlateKeepsInv(c, v, slateReady, writeOk);
    if w.held.Some? {
      var b := Repeat(w.held.value, now, floor);
      if MayFollow(c, w.log, b) {
        NotedKeeps(c, v, b);
      }
    }
  }

  lemma StepKeepsInv(c: Config, w: Writer, t: Turn)
    requires Inv(c, w)
    ensures Inv(c, Step(c, w, t))
  {
    hide SafeLog, LastShown, SlateWritten, CameraWritten, GapFilled;
    match t
    case Stop =>
    case Input(f, slateWanted, floor, now, writeOk) => CameraKeepsInv(c, w, f, floor, now, writeOk);
    case Tick(slateWanted, floor, now, slateReady, writeOk) =>
      SlateKeepsInv(c, w, slateReady, writeOk);
      GapKeepsInv(c, w, floor, now, slateReady, writeOk);
  }

  /** Over every run of turns: every block was allowed to follow the ones before it, and the stable callback fired once
      if 300 blocks went out, never otherwise. */
  lemma {:induction false} RunIsSafe(c: Config, w: Writer, turns: seq<Turn>)
    requires Inv(c, w)
    ensures Inv(c, Run(c, w, turns))
    decreases |turns|
  {
    if turns != [] {
      StepKeepsInv(c, w, turns[0]);
      RunIsSafe(c, Step(c, w, turns[0]), turns[1..]);
    }
  }

  lemma StartIsSafe(c: Config, now: int, inputStalled: bool, turns: seq<Turn>)
    ensures var w := Run(c, Start(now, inputStalled), turns);
            SafeLog(c, w.log) && w.stableCalls == (if |w.log| >= 300 then 1 else 0)
  {
    RunIsSafe(c, Start(now, inputStalled), turns);
  }

  /** The callback fires exactly on the turn that writes block 300. */
  lemma StableAtThreeHundred(c: Config, w: Writer, t: Turn)
    requires Inv(c, w)
    ensures var v := Step(c, w, t);
            v.stableCalls != w.stableCalls <==> |w.log| == 299 && |v.log| == 300
  {
    StepKeepsInv(c, w, t);
  }

  /** What a tick writes, said in terms of what is on screen and how long ago it arrived. */
  lemma TickDecides(c: Config, w: Writer, t: Turn)
    requires Inv(c, w) && w.outcome.Running? && t.Tick? && t.slateReady && t.writeOk
    ensures var v := Step(c, w, t);
            var gap := t.now - w.lastInputAt;
            var shown := LastShown(w.log);
            && v.outcome.Running?
            && (v.log == w.log <==> !t.slateWanted && gap < c.gapFillAfter)
            && (v.log != w.log ==>
                  v.log == w.log + [if !t.slateWanted && shown.Some? && gap < c.freezeMax &&
                                       Holdable(shown.value.frame.generation, t.floor)
                                    then Repeat(shown.value.frame, t.now, t.floor) else Slate])
  {
    var v := Step(c, w, t);
    assert v.log == w.log || |v.log| == |w.log| + 1;
  }

  predicate SlateWantedThroughout(turns: seq<Turn>) {
    forall i :: 0 <= i < |turns| && !turns[i].Stop? ==> turns[i].slateWanted
  }

  /** Over any stretch of turns during a pause or a recovery, every block written is a slate. */
  lemma {:induction false} PauseWritesOnlySlates(c: Config, w: Writer, turns: seq<Turn>)
    requires SlateWantedThroughout(turns)
    ensures w.log <= Run(c, w, turns).log
    ensures forall i :: |w.log| <= i < |Run(c, w, turns).log| ==> Run(c, w, turns).log[i] == Slate
    decreases |turns|
  {
    if turns != [] {
      var v := Step(c, w, turns[0]);
      assert v.log == w.log || v.log == w.log + [Slate];
      PauseWritesOnlySlates(c, v, turns[1..]);
    }
  }

  // ---------- In plain terms ----------

  /** Two of three samples are luma: half the size is a third of it more, with odd sizes rounded up for chroma. */
  lemma RawSizeByParity(a: nat, b: nat)
    requires a > 0 && b > 0
    ensures RawFrameSize(2 * a, 2 * b) == 6 * (a * b)
    ensures RawFrameSize(2 * a - 1, 2 * b) == 6 * (a * b) - 2 * b
    ensures RawFrameSize(2 * a, 2 * b - 1) == 6 * (a * b) - 2 * a
    ensures RawFrameSize(2 * a - 1, 2 * b - 1) == 6 * (a * b) - 2 * a - 2 * b + 1
  {
    assert (2 * a + 1) / 2 == a && (2 * b + 1) / 2 == b;
    assert (2 * a) * (2 * b) == 4 * (a * b);
    assert (2 * a - 1) * (2 * b) == 4 * (a * b) - 2 * b;
    assert (2 * a) * (2 * b - 1) == 4 * (a * b) - 2 * a;
    assert (2 * a - 1) * (2 * b - 1) == 4 * (a * b) - 2 * a - 2 * b + 1;
    assert 2 * a * b == 2 * (a * b);
  }

  /** The frame fits: a raw frame of exactly its size, or data between the markers of a JPEG. */
  predicate Fits(format: WireFormat, f: Frame) {
    match format
    case Raw => |f.data| == RawFrameSize(f.width, f.height)
    case Jpeg => |f.data| >= 4 && f.data[..2] == [0xff, 0xd8] && f.data[|f.data| - 2..] == [0xff, 0xd9]
  }

  lemma FitsExactly(format: WireFormat, f: Frame)
    ensures Fits(format, f) <==> ValidFrame(format, f)
  {
    if |f.data| >= 4 {
      assert f.data[..2] == [f.data[0], f.data[1]];
      assert f.data[|f.data| - 2..] == [f.data[|f.data| - 2], f.data[|f.data| - 1]];
    }
  }

  /** The frame has a known resolution, and it is not the encoder's. */
  predicate Mismatches(c: Config, f: Frame) { f.width > 0 && f.height > 0 && !(f.width == c.width && f.height == c.height) }

  /** What a camera frame comes to: a mismatch stops the writer, also during a slate; otherwise it is written exactly if no slate
      is wanted, it fits and its generation is allowed, and then it is held and the clock of the gap starts anew. */
  lemma CameraDecides(c: Config, w: Writer, t: Turn)
    requires Inv(c, w) && w.outcome.Running? && t.Input?
    ensures var v := Step(c, w, t);
            var passes := !t.slateWanted && Fits(c.format, t.frame) && t.frame.generation >= t.floor;
            if Mismatches(c, t.frame) then v == w.(outcome := Mismatch(t.frame))
            else if !passes then v == w
            else if !t.writeOk then v == w.(outcome := Failed)
            else
              && v.outcome == Running && v.log == w.log + [Fresh(t.frame, t.now, t.floor)] && v.held == Some(t.frame)
              && v.lastInputAt == t.now && !v.stalled && !v.inputStalled
  {
    FitsExactly(c.format, t.frame);
    hide SafeLog, LastShown, ValidFrame, Fits;
  }

  /** What else a tick does: it fails exactly if it had something to write and could not; it marks the input as stalled once the
      gap is long enough; after a slate nothing is held; and the clock of the gap runs on. */
  lemma TickEffects(c: Config, w: Writer, t: Turn)
    requires Inv(c, w) && w.outcome.Running? && t.Tick?
    ensures var v := Step(c, w, t);
            var gap := t.now - w.lastInputAt;
            var fills := !t.slateWanted && gap >= c.gapFillAfter;
            var repeats := fills && w.held.Some? && gap < c.freezeMax && w.held.value.generation > 0 && w.held.value.generation >= t.floor;
            && v.lastInputAt == w.lastInputAt
            && (v.outcome == Failed <==> (t.slateWanted || fills) && (!t.writeOk || (!repeats && !t.slateReady)))
            && (v.outcome != Failed ==> v.outcome == Running)
            && v.stalled == (w.stalled || fills) && v.inputStalled == (w.inputStalled || fills)
            && v.held == (if (t.slateWanted || fills) && !repeats && v.outcome == Running then None else w.held)
  {
    hide SafeLog, LastShown;
  }

  lemma StopStops(c: Config, w: Writer, t: Turn)
    ensures w.outcome.Running? ==> Step(c, w, Stop) == w.(outcome := Cancelled)
    ensures !w.outcome.Running? ==> Step(c, w, t) == w
  {
  }

  /** A writer starts with nothing written and nothing held, and runs. */
  lemma StartsRunning(now: int, inputStalled: bool)
    ensures var w := Start(now, inputStalled);
            && w.outcome == Running && w.log == [] && w.held == None && w.lastInputAt == now
            && w.stalled == inputStalled && w.inputStalled == inputStalled && !w.stable && w.stableCalls == 0
  {
  }
}
