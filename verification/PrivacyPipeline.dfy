/** Settings generations from the processor to the encoder (internal/media/processor.go, track.go, egress.go).

    Any number of processors, settings changes and frames are in flight at once; every atomic load or store, every read of
    a settings field and every lock operation is a step of its own.  So are the two halves of a turn of the writer: it looks
    (takes a frame or a tick, loads the lowest generation allowed, decides), and later it writes. */
module PrivacyPipeline {
  import opened Basics
  import opened EgressWriter

  datatype Settings = Settings(anonymize: bool, blur: bool, mosaic: nat)

  /** What happened to the picture: left as it came, blurred as a whole, or anonymized under a mosaic configuration. */
  datatype Treatment = Original | Blurred | Anonymized(mosaic: nat)

  function TreatmentUnder(s: Settings): Treatment {
    if s.blur then Blurred else if !s.anonymize then Original else Anonymized(s.mosaic)
  }

  datatype Change = SetAnonymize(enabled: bool) | SetBlur(blurred: bool) | SetMosaic(config: nat) | SetPaused(paused: bool)

  function Applied(s: Settings, c: Change): Settings {
    match c
    case SetAnonymize(b) => s.(anonymize := b)
    case SetBlur(b) => s.(blur := b)
    case SetMosaic(m) => s.(mosaic := m)
    case SetPaused(_) => s
  }

  /** How far the holder of the write lock has come.  A ticket is a generation drawn from the global counter. */
  datatype Phase = Entered | Drawn(ticket: nat) | Numbered | Assigned
  datatype WriteLock = Free | Held(change: Change, phase: Phase)

  datatype Processor = Processor(generation: nat, settings: Settings, paused: bool, lock: WriteLock)

  /** How far a frame has come.  From Locked to Treated it holds the read lock of its processor. */
  datatype Stage = Waiting | Locked | Admitted | NotBlurred | Wanted | Treated(treatment: Treatment) | Released(how: Treatment)

  /** `before` is the generation loaded first, `under` the one in force when the lock was taken, `seen` all settings read. */
  datatype Work = Work(processor: nat, before: nat, stage: Stage, under: nat, seen: set<Settings>)

  datatype Provenance = Provenance(treatment: Treatment, seen: set<Settings>)

  datatype Pipeline = Pipeline(
    counter: nat, processors: map<nat, Processor>, work: map<nat, Work>,
    installed: map<nat, Settings>, stamped: map<nat, Frame>, provenance: map<nat, Provenance>,
    floor: nat, config: Config, writer: Writer, looked: Option<Turn>, shown: seq<Block>)

  datatype Event =
    | NewProcessor(p: nat)
    | LockSettings(p: nat, change: Change)
    | ChangeSettings(p: nat)
    | LoadGeneration(f: nat, p: nat)
    | Advance(f: nat)
    | Drop(f: nat)
    | Stamp(f: nat, data: seq<Byte>, width: nat, height: nat)
    | Invalidate(generation: nat)
    | Restart(config: Config, now: int, inputStalled: bool)
    | Look(turn: Turn)
    | Write(slateReady: bool, writeOk: bool, at: int)

  predicate HoldsReadLock(w: Work) { !w.stage.Waiting? && !w.stage.Released? }

  ghost predicate ReadersOut(s: Pipeline, p: nat) {
    forall f :: f in s.work && s.work[f].processor == p ==> !HoldsReadLock(s.work[f])
  }

  ghost predicate Enabled(s: Pipeline, e: Event) {
    match e
    case NewProcessor(p) => p !in s.processors
    case LockSettings(p, _) => p in s.processors && s.processors[p].lock.Free? && ReadersOut(s, p)
    case ChangeSettings(p) => p in s.processors && s.processors[p].lock.Held?
    case LoadGeneration(f, p) => f !in s.work && f !in s.provenance && p in s.processors
    case Advance(f) =>
      && f in s.work && s.work[f].processor in s.processors && !s.work[f].stage.Released?
      && (s.work[f].stage.Waiting? ==> s.processors[s.work[f].processor].lock.Free?)
    case Drop(f) => f in s.work
    case Stamp(f, _, _, _) => f in s.work && s.work[f].stage.Released? && s.work[f].processor in s.processors
    case Invalidate(_) => true
    case Restart(_, _, _) => s.looked.None?
    case Look(t) => s.looked.None? && (t.Stop? || t.floor == s.floor) && LookOk(t, s.stamped, s.floor)
    case Write(_, _, _) => s.looked.Some?
  }

  /** What the writer looks at: a stamped frame or a tick, against a floor of the past or the present. */
  ghost predicate LookOk(t: Turn, stamped: map<nat, Frame>, floor: nat) {
    match t
    case Stop => true
    case Tick(_, f, _, _, _) => f <= floor
    case Input(frame, _, f, _, _) => f <= floor && frame.id in stamped && stamped[frame.id] == frame
  }

  // ---------- Steps ----------

  function Created(s: Pipeline, p: nat): Pipeline {
    var settings := Settings(true, false, 0);
    s.(counter := s.counter + 1, installed := s.installed[s.counter + 1 := settings],
       processors := s.processors[p := Processor(s.counter + 1, settings, false, Free)])
  }

  /** The next thing the holder of the write lock does.  Only a real change draws and stores a new generation, and it does
      so before the field is assigned. */
  function Changed(s: Pipeline, p: nat): Pipeline
    requires p in s.processors && s.processors[p].lock.Held?
  {
    var proc := s.processors[p];
    var change := proc.lock.change;
    match proc.lock.phase
    case Entered =>
      if Applied(proc.settings, change) != proc.settings
      then s.(counter := s.counter + 1, processors := s.processors[p := proc.(lock := Held(change, Drawn(s.counter + 1)))])
      else s.(processors := s.processors[p := proc.(lock := Held(change, Numbered))])
    case Drawn(ticket) =>
      s.(installed := s.installed[ticket := Applied(proc.settings, change)],
         processors := s.processors[p := proc.(generation := ticket, lock := Held(change, Numbered))])
    case Numbered =>
      s.(processors := s.processors[p := proc.(settings := Applied(proc.settings, change),
                                               paused := if change.SetPaused? then change.paused else proc.paused,
                                               lock := Held(change, Assigned))])
    case Assigned => s.(processors := s.processors[p := proc.(lock := Free)])
  }

  function Looked(w: Work, settings: Settings, next: Stage): Work { w.(stage := next, seen := w.seen + {settings}) }

  /** The next thing a frame does; None when it is dropped because input is paused. */
  function Moved(w: Work, proc: Processor): Option<Work> {
    match w.stage
    case Waiting => Some(w.(stage := Locked, under := proc.generation))
    case Locked => if proc.paused then None else Some(w.(stage := Admitted))
    case Admitted => Some(Looked(w, proc.settings, if proc.settings.blur then Treated(Blurred) else NotBlurred))
    case NotBlurred => Some(Looked(w, proc.settings, if proc.settings.anonymize then Wanted else Treated(Original)))
    case Wanted => Some(Looked(w, proc.settings, Treated(Anonymized(proc.settings.mosaic))))
    case Treated(how) => Some(w.(stage := Released(how)))
    case Released(_) => Some(w)
  }

  function Advanced(s: Pipeline, f: nat): Pipeline
    requires f in s.work && s.work[f].processor in s.processors
  {
    match Moved(s.work[f], s.processors[s.work[f].processor])
    case None => s.(work := s.work - {f})
    case Some(w) => s.(work := s.work[f := w])
  }

  /** The generation is loaded once more; a frame keeps the first one only if they agree. */
  function Stamped(s: Pipeline, f: nat, data: seq<Byte>, width: nat, height: nat): Pipeline
    requires f in s.work && s.work[f].stage.Released? && s.work[f].processor in s.processors
  {
    var w := s.work[f];
    var generation := if s.processors[w.processor].generation == w.before then w.before else 0;
    s.(work := s.work - {f}, stamped := s.stamped[f := Frame(f, data, width, height, generation)],
       provenance := s.provenance[f := Provenance(w.stage.how, w.seen)])
  }

  /** The rest of a turn: whether the slate could be made, whether the write worked, and when a camera frame was through. */
  function Completed(t: Turn, slateReady: bool, writeOk: bool, at: int): Turn {
    match t
    case Stop => Stop
    case Input(f, slateWanted, floor, _, _) => Input(f, slateWanted, floor, at, writeOk)
    case Tick(slateWanted, floor, now, _, _) => Tick(slateWanted, floor, now, slateReady, writeOk)
  }

  function Written(s: Pipeline, t: Turn): Pipeline {
    var w := EgressWriter.Step(s.config, s.writer, t);
    if |w.log| > |s.writer.log| then s.(writer := w, looked := None, shown := s.shown + [w.log[|w.log| - 1]])
    else s.(writer := w, looked := None)
  }

  function Step(s: Pipeline, e: Event): Pipeline
    requires Enabled(s, e)
  {
    match e
    case NewProcessor(p) => Created(s, p)
    case LockSettings(p, change) => s.(processors := s.processors[p := s.processors[p].(lock := Held(change, Entered))])
    case ChangeSettings(p) => Changed(s, p)
    case LoadGeneration(f, p) => s.(work := s.work[f := Work(p, s.processors[p].generation, Waiting, 0, {})])
    case Advance(f) => Advanced(s, f)
    case Drop(f) => s.(work := s.work - {f})
    case Stamp(f, data, width, height) => Stamped(s, f, data, width, height)
    case Invalidate(g) => s.(floor := if g <= s.floor then s.floor else g)
    case Restart(config, now, inputStalled) => s.(config := config, writer := Start(now, inputStalled))
    case Look(t) => s.(looked := Some(t))
    case Write(slateReady, writeOk, at) => Written(s, Completed(s.looked.value, slateReady, writeOk, at))
  }

  function Empty(config: Config, now: int): Pipeline {
    Pipeline(0, map[], map[], map[], map[], map[], 0, config, Start(now, false), None, [])
  }

  // ---------- Invariant ----------

  /** The settings a processor's generation stands for: those in force, or about to be once the field is assigned. */
  function Announced(proc: Processor): Settings {
    if proc.lock.Held? && proc.lock.phase.Numbered? then Applied(proc.settings, proc.lock.change) else proc.settings
  }

  predicate HasTicket(proc: Processor) { proc.lock.Held? && proc.lock.phase.Drawn? }

  ghost predicate Numbering(counter: nat, processors: map<nat, Processor>, installed: map<nat, Settings>) {
    && (forall g :: g in installed ==> 0 < g <= counter)
    && (forall p :: p in processors ==>
          processors[p].generation in installed && installed[processors[p].generation] == Announced(processors[p]))
    && (forall p :: p in processors && HasTicket(processors[p]) ==>
          processors[p].generation < processors[p].lock.phase.ticket <= counter && processors[p].lock.phase.ticket !in installed)
    && (forall p, q :: p in processors && q in processors && p != q && HasTicket(processors[p]) && HasTicket(processors[q]) ==>
          processors[p].lock.phase.ticket != processors[q].lock.phase.ticket)
  }

  /** What a stage says about the settings that were read to reach it. */
  predicate StageOk(w: Work, settings: Settings) {
    match w.stage
    case Waiting => w.seen == {}
    case Locked => w.seen == {}
    case Admitted => w.seen == {}
    case NotBlurred => w.seen == {settings} && !settings.blur
    case Wanted => w.seen == {settings} && !settings.blur && settings.anonymize
    case Treated(how) => w.seen == {settings} && how == TreatmentUnder(settings)
    case Released(how) => w.seen == {settings} && how == TreatmentUnder(settings)
  }

  /** A frame under the read lock sees no change; afterwards generations only grow. */
  ghost predicate WorkOk(w: Work, processors: map<nat, Processor>, installed: map<nat, Settings>) {
    && w.processor in processors
    && var proc := processors[w.processor];
       && w.before <= proc.generation
       && (HoldsReadLock(w) ==> proc.lock.Free? && w.under == proc.generation)
       && (w.stage.Waiting? ==> w.seen == {})
       && (!w.stage.Waiting? ==>
             w.before <= w.under <= proc.generation && w.under in installed && StageOk(w, installed[w.under]))
  }

  /** The point of a stamp: a frame of generation g > 0 was treated wholly under the settings installed with g. */
  ghost predicate FrameOk(f: Frame, provenance: map<nat, Provenance>, installed: map<nat, Settings>) {
    && f.id in provenance
    && (f.generation > 0 ==>
          && f.generation in installed
          && provenance[f.id] == Provenance(TreatmentUnder(installed[f.generation]), {installed[f.generation]}))
  }

  ghost predicate BlockOk(b: Block, stamped: map<nat, Frame>, floor: nat) {
    b.Slate? || (b.frame.id in stamped && stamped[b.frame.id] == b.frame && b.floor <= b.frame.generation && b.floor <= floor)
  }

  ghost predicate Inv(s: Pipeline) {
    && Numbering(s.counter, s.processors, s.installed)
    && (forall f :: f in s.work ==> f !in s.provenance && WorkOk(s.work[f], s.processors, s.installed))
    && (forall f :: f in s.stamped ==> s.stamped[f].id == f && FrameOk(s.stamped[f], s.provenance, s.installed))
    && (forall i :: 0 <= i < |s.shown| ==> BlockOk(s.shown[i], s.stamped, s.floor))
    && EgressWriter.Inv(s.config, s.writer)
    && (s.writer.held.Some? ==> s.writer.held.value.id in s.stamped && s.stamped[s.writer.held.value.id] == s.writer.held.value)
    && (s.looked.Some? ==> LookOk(s.looked.value, s.stamped, s.floor))
  }

  // ---------- Preservation ----------

  /** Settings once installed under a generation are never replaced. */
  ghost predicate Extends(a: map<nat, Settings>, b: map<nat, Settings>) {
    forall g :: g in a ==> g in b && b[g] == a[g]
  }

  lemma CreatedNumbering(s: Pipeline, p: nat)
    requires Numbering(s.counter, s.processors, s.installed) && p !in s.processors
    ensures var t := Created(s, p);
            Numbering(t.counter, t.processors, t.installed) && Extends(s.installed, t.installed)
  {
  }

  /** A processor may be replaced by one whose generation is installed and whose ticket, if any, is new. */
  lemma NumberingKept(counter: nat, processors: map<nat, Processor>, installed: map<nat, Settings>,
                      p: nat, proc: Processor, counter': nat, installed': map<nat, Settings>)
    requires Numbering(counter, processors, installed) && p in processors
    requires counter <= counter' && Extends(installed, installed') && forall g :: g in installed' ==> 0 < g <= counter'
    requires proc.generation in installed' && installed'[proc.generation] == Announced(proc)
    requires HasTicket(proc) ==> proc.generation <= counter < proc.lock.phase.ticket <= counter' && installed' == installed
    requires forall q :: q in processors && q != p && HasTicket(processors[q]) ==> processors[q].lock.phase.ticket !in installed'
    ensures Numbering(counter', processors[p := proc], installed')
  {
  }

  /** Nobody else's ticket is installed by storing one's own. */
  lemma OtherTickets(processors: map<nat, Processor>, installed: map<nat, Settings>, counter: nat, p: nat, settings: Settings)
    requires Numbering(counter, processors, installed) && p in processors && HasTicket(processors[p])
    ensures var installed' := installed[processors[p].lock.phase.ticket := settings];
            && Extends(installed, installed') && (forall g :: g in installed' ==> 0 < g <= counter)
            && forall q :: q in processors && q != p && HasTicket(processors[q]) ==> processors[q].lock.phase.ticket !in installed'
  {
  }

  lemma ProcessorFacts(processors: map<nat, Processor>, installed: map<nat, Settings>, counter: nat, p: nat)
    requires Numbering(counter, processors, installed) && p in processors
    ensures var proc := processors[p];
            && proc.generation in installed && installed[proc.generation] == Announced(proc) && proc.generation <= counter
            && (HasTicket(proc) ==> proc.generation < proc.lock.phase.ticket <= counter)
    ensures forall g :: g in installed ==> 0 < g <= counter
    ensures forall q :: q in processors && HasTicket(processors[q]) ==> processors[q].lock.phase.ticket !in installed
  {
  }

  lemma ChangedNumbering(s: Pipeline, p: nat)
    requires Numbering(s.counter, s.processors, s.installed) && p in s.processors && s.processors[p].lock.Held?
    ensures var t := Changed(s, p);
            && Numbering(t.counter, t.processors, t.installed) && Extends(s.installed, t.installed)
            && s.processors[p].generation <= t.processors[p].generation
  {
    hide Numbering;
    var t := Changed(s, p);
    var proc := s.processors[p];
    AppliedTwice(proc.settings, proc.lock.change);
    hide Applied;
    ProcessorFacts(s.processors, s.installed, s.counter, p);
    ExtendsSelf(s.installed);
    if HasTicket(proc) {
      OtherTickets(s.processors, s.installed, s.counter, p, Applied(proc.settings, proc.lock.change));
    }
    NumberingKept(s.counter, s.processors, s.installed, p, t.processors[p], t.counter, t.installed);
  }

  lemma AppliedTwice(s: Settings, c: Change)
    ensures Applied(Applied(s, c), c) == Applied(s, c)
  {
  }

  lemma LockedNumbering(s: Pipeline, p: nat, change: Change)
    requires Numbering(s.counter, s.processors, s.installed) && p in s.processors && s.processors[p].lock.Free?
    ensures Numbering(s.counter, s.processors[p := s.processors[p].(lock := Held(change, Entered))], s.installed)
  {
  }

  /** A frame is untouched by what happens to processors whose read lock it does not hold. */
  lemma WorkKept(w: Work, processors: map<nat, Processor>, installed: map<nat, Settings>,
                 processors': map<nat, Processor>, installed': map<nat, Settings>)
    requires WorkOk(w, processors, installed) && Extends(installed, installed')
    requires w.processor in processors' && processors[w.processor].generation <= processors'[w.processor].generation
    requires HoldsReadLock(w) ==> processors'[w.processor] == processors[w.processor]
    ensures WorkOk(w, processors', installed')
  {
  }

  lemma FrameKept(f: Frame, provenance: map<nat, Provenance>, installed: map<nat, Settings>,
                  provenance': map<nat, Provenance>, installed': map<nat, Settings>)
    requires FrameOk(f, provenance, installed) && Extends(installed, installed')
    requires f.id in provenance' && provenance'[f.id] == provenance[f.id]
    ensures FrameOk(f, provenance', installed')
  {
  }

  /** Steps that change only processors, generations and the counter. */
  lemma ProcessorStepKeeps(s: Pipeline, t: Pipeline, p: nat)
    requires Inv(s) && Numbering(t.counter, t.processors, t.installed) && Extends(s.installed, t.installed)
    requires t == s.(counter := t.counter, processors := t.processors, installed := t.installed)
    requires p in t.processors && t.processors == s.processors[p := t.processors[p]]
    requires p in s.processors ==> s.processors[p].generation <= t.processors[p].generation && ReadersOut(s, p)
    ensures Inv(t)
  {
    hide Numbering, Extends, EgressWriter.Inv;
    forall f | f in s.work
      ensures WorkOk(s.work[f], t.processors, t.installed)
    {
      WorkKept(s.work[f], s.processors, s.installed, t.processors, t.installed);
    }
    forall f | f in s.stamped
      ensures FrameOk(s.stamped[f], t.provenance, t.installed)
    {
      FrameKept(s.stamped[f], s.provenance, s.installed, t.provenance, t.installed);
    }
  }

  /** A held write lock keeps every reader out. */
  lemma WriterExcludesReaders(s: Pipeline, p: nat)
    requires Inv(s) && p in s.processors && s.processors[p].lock.Held?
    ensures ReadersOut(s, p)
  {
    hide Numbering, EgressWriter.Inv;
  }

  lemma ChangedFrame(s: Pipeline, p: nat)
    requires p in s.processors && s.processors[p].lock.Held?
    ensures var t := Changed(s, p);
            && p in t.processors && t.processors == s.processors[p := t.processors[p]]
            && t == s.(counter := t.counter, processors := t.processors, installed := t.installed)
  {
    hide Applied;
  }

  lemma ChangedKeeps(s: Pipeline, p: nat)
    requires Inv(s) && Enabled(s, ChangeSettings(p))
    ensures Inv(Changed(s, p))
  {
    hide Numbering, Extends, ReadersOut, Changed;
    ChangedNumbering(s, p);
    ChangedFrame(s, p);
    WriterExcludesReaders(s, p);
    ProcessorStepKeeps(s, Changed(s, p), p);
  }

  lemma ProcessorOk(s: Pipeline, p: nat)
    requires Numbering(s.counter, s.processors, s.installed) && p in s.processors
    ensures s.processors[p].generation in s.installed && s.processors[p].generation > 0
    ensures s.processors[p].lock.Free? ==> s.installed[s.processors[p].generation] == s.processors[p].settings
  {
  }

  /** One step of a frame: what it reads under the lock is what its generation stands for. */
  lemma MovedOk(w: Work, processors: map<nat, Processor>, installed: map<nat, Settings>)
    requires WorkOk(w, processors, installed) && !w.stage.Released?
    requires var proc := processors[w.processor];
             && proc.lock.Free? && proc.generation in installed && installed[proc.generation] == proc.settings
    ensures var m := Moved(w, processors[w.processor]); m.Some? ==> WorkOk(m.value, processors, installed)
  {
    var settings := processors[w.processor].settings;
    assert {settings} + {settings} == {settings} && {} + {settings} == {settings};
  }

  lemma AdvancedKeeps(s: Pipeline, f: nat)
    requires Inv(s) && Enabled(s, Advance(f))
    ensures Inv(Advanced(s, f))
  {
    hide Numbering, EgressWriter.Inv, FrameOk, BlockOk;
    assert WorkOk(s.work[f], s.processors, s.installed);
    ProcessorOk(s, s.work[f].processor);
    MovedOk(s.work[f], s.processors, s.installed);
    hide Moved, WorkOk;
  }

  /** The stamp is honest: equal loads before and after mean that nothing changed in between. */
  lemma StampedFrameOk(s: Pipeline, f: nat, data: seq<Byte>, width: nat, height: nat)
    requires Inv(s) && Enabled(s, Stamp(f, data, width, height))
    ensures var t := Stamped(s, f, data, width, height); FrameOk(t.stamped[f], t.provenance, t.installed)
  {
    hide Numbering, EgressWriter.Inv, BlockOk;
    assert WorkOk(s.work[f], s.processors, s.installed);
  }

  lemma StampedKeeps(s: Pipeline, f: nat, data: seq<Byte>, width: nat, height: nat)
    requires Inv(s) && Enabled(s, Stamp(f, data, width, height))
    ensures Inv(Stamped(s, f, data, width, height))
  {
    StampedFrameOk(s, f, data, width, height);
    hide Numbering, EgressWriter.Inv, WorkOk, FrameOk;
    var t := Stamped(s, f, data, width, height);
    assert f !in s.stamped by {
      if f in s.stamped {
        assert FrameOk(s.stamped[f], s.provenance, s.installed);
        StampedIds(s, f);
      }
    }
    forall k | k in t.stamped
      ensures t.stamped[k].id == k && FrameOk(t.stamped[k], t.provenance, t.installed)
    {
      if k != f {
        StampedIds(s, k);
        ExtendsSelf(s.installed);
        FrameKept(s.stamped[k], s.provenance, s.installed, t.provenance, t.installed);
      }
    }
  }

  lemma ExtendsSelf(a: map<nat, Settings>)
    ensures Extends(a, a)
  {
  }

  lemma StampedIds(s: Pipeline, f: nat)
    requires Inv(s) && f in s.stamped
    ensures s.stamped[f].id == f && f in s.provenance && f !in s.work && FrameOk(s.stamped[f], s.provenance, s.installed)
  {
    hide Numbering, EgressWriter.Inv, WorkOk, BlockOk;
  }

  /** One turn of the writer shows nothing, or one block that passed the writer's check against the floor it looked at. */
  lemma WrittenBlock(s: Pipeline, t: Turn)
    requires Inv(s) && LookOk(t, s.stamped, s.floor)
    ensures var w := EgressWriter.Step(s.config, s.writer, t);
            && EgressWriter.Inv(s.config, w)
            && (w.held.Some? ==> w.held.value.id in s.stamped && s.stamped[w.held.value.id] == w.held.value)
            && (|w.log| > |s.writer.log| ==> |w.log| == |s.writer.log| + 1 && BlockOk(w.log[|w.log| - 1], s.stamped, s.floor))
            && (|w.log| > |s.writer.log| && !w.log[|w.log| - 1].Slate? ==> !t.Stop? && w.log[|w.log| - 1].floor == t.floor)
  {
    hide Numbering, WorkOk, FrameOk, SafeLog, LastShown, ValidFrame, ResolutionChanged;
    EgressWriter.StepKeepsInv(s.config, s.writer, t);
    hide EgressWriter.Inv;
  }

  lemma WrittenKeeps(s: Pipeline, t: Turn)
    requires Inv(s) && LookOk(t, s.stamped, s.floor)
    ensures Inv(Written(s, t))
  {
    hide Numbering, WorkOk, FrameOk, EgressWriter.Inv, EgressWriter.Step, BlockOk;
    WrittenBlock(s, t);
  }

  lemma StepKeepsInv(s: Pipeline, e: Event)
    requires Inv(s) && Enabled(s, e)
    ensures Inv(Step(s, e))
  {
    match e
    case NewProcessor(p) => CreatedKeeps(s, p);
    case LockSettings(p, change) => LockedKeeps(s, p, change);
    case ChangeSettings(p) => ChangedKeeps(s, p);
    case LoadGeneration(f, p) => LoadedKeeps(s, f, p);
    case Advance(f) => AdvancedKeeps(s, f);
    case Drop(f) => DroppedKeeps(s, f);
    case Stamp(f, data, width, height) => StampedKeeps(s, f, data, width, height);
    case Invalidate(g) => FloorRaised(s, g);
    case Restart(config, now, inputStalled) => RestartKeeps(s, config, now, inputStalled);
    case Look(t) => LookedKeeps(s, t);
    case Write(slateReady, writeOk, at) => WrittenKeeps(s, Completed(s.looked.value, slateReady, writeOk, at));
  }

  lemma LookedKeeps(s: Pipeline, t: Turn)
    requires Inv(s) && Enabled(s, Look(t))
    ensures Inv(Step(s, Look(t)))
  {
    hide Numbering, WorkOk, FrameOk, BlockOk, EgressWriter.Inv;
  }

  lemma CreatedKeeps(s: Pipeline, p: nat)
    requires Inv(s) && p !in s.processors
    ensures Inv(Created(s, p))
  {
    hide Numbering, Extends;
    CreatedNumbering(s, p);
    ProcessorStepKeeps(s, Created(s, p), p);
  }

  lemma LockedKeeps(s: Pipeline, p: nat, change: Change)
    requires Inv(s) && Enabled(s, LockSettings(p, change))
    ensures Inv(Step(s, LockSettings(p, change)))
  {
    hide Numbering, Extends;
    LockedNumbering(s, p, change);
    ExtendsSelf(s.installed);
    ProcessorStepKeeps(s, Step(s, LockSettings(p, change)), p);
  }

  lemma LoadedKeeps(s: Pipeline, f: nat, p: nat)
    requires Inv(s) && Enabled(s, LoadGeneration(f, p))
    ensures Inv(Step(s, LoadGeneration(f, p)))
  {
    hide Numbering, FrameOk, BlockOk, EgressWriter.Inv;
  }

  lemma DroppedKeeps(s: Pipeline, f: nat)
    requires Inv(s) && f in s.work
    ensures Inv(Step(s, Drop(f)))
  {
    hide Numbering, WorkOk, FrameOk, BlockOk, EgressWriter.Inv;
  }

  lemma FloorRaised(s: Pipeline, g: nat)
    requires Inv(s)
    ensures Inv(Step(s, Invalidate(g)))
  {
    hide Numbering, WorkOk, FrameOk, EgressWriter.Inv;
  }

  lemma RestartKeeps(s: Pipeline, config: Config, now: int, inputStalled: bool)
    requires Inv(s) && s.looked.None?
    ensures Inv(Step(s, Restart(config, now, inputStalled)))
  {
    hide Numbering, WorkOk, FrameOk, BlockOk;
  }

  // ---------- Runs ----------

  ghost predicate Runs(s: Pipeline, run: seq<Event>)
    decreases |run|
  {
    run == [] || (Enabled(s, run[0]) && Runs(Step(s, run[0]), run[1..]))
  }

  ghost function After(s: Pipeline, run: seq<Event>): Pipeline
    requires Runs(s, run)
    decreases |run|
  {
    if run == [] then s else After(Step(s, run[0]), run[1..])
  }

  lemma Prepend(s: Pipeline, e: Event, run: seq<Event>)
    requires Enabled(s, e) && Runs(Step(s, e), run)
    ensures Runs(s, [e] + run) && After(s, [e] + run) == After(Step(s, e), run)
  {
    hide Step, Enabled;
    assert ([e] + run)[1..] == run;
  }

  /** The camera frame a turn that was looked at puts on screen if its write works, fresh or held. */
  ghost function Passing(c: Config, w: Writer, t: Turn): Option<Frame> {
    var v := EgressWriter.Step(c, w, Completed(t, true, true, 0));
    if |v.log| > |w.log| && !v.log[|v.log| - 1].Slate? then Some(v.log[|v.log| - 1].frame) else None
  }

  /** The block a turn adds, if any: what it is does not depend on how the turn is completed. */
  lemma CameraCompletes(c: Config, w: Writer, f: Frame, floor: nat, writeOk: bool, at: int)
    ensures var v := CameraWritten(c, w, f, floor, at, writeOk);
            var passes := !ResolutionChanged(f, c.width, c.height) && ValidFrame(c.format, f) && f.generation >= floor;
            if passes && writeOk then v.log == w.log + [Fresh(f, at, floor)] else v.log == w.log
  {
    hide ValidFrame, ResolutionChanged;
  }

  lemma GapCompletes(c: Config, w: Writer, floor: nat, now: int, slateReady: bool, writeOk: bool)
    ensures var v := GapFilled(c, w, floor, now, slateReady, writeOk);
            var passes := now - w.lastInputAt >= c.gapFillAfter && w.held.Some? && now - w.lastInputAt < c.freezeMax &&
                          Holdable(w.held.value.generation, floor);
            if passes then v.log == (if writeOk then w.log + [Repeat(w.held.value, now, floor)] else w.log)
            else v.log == w.log || v.log == w.log + [Slate]
  {
    hide Holdable;
  }

  /** However the turn is completed, the only camera frame it can show is the one that passed, and a working write shows it. */
  lemma PassingIsShown(c: Config, w: Writer, t: Turn, slateReady: bool, writeOk: bool, at: int)
    ensures var v := EgressWriter.Step(c, w, Completed(t, slateReady, writeOk, at));
            && |w.log| <= |v.log| <= |w.log| + 1
            && (|v.log| > |w.log| && !v.log[|v.log| - 1].Slate? ==> Passing(c, w, t) == Some(v.log[|v.log| - 1].frame))
            && (Passing(c, w, t).Some? && writeOk ==> |v.log| > |w.log| && !v.log[|v.log| - 1].Slate?)
  {
    hide CameraWritten, GapFilled, ValidFrame, ResolutionChanged, Holdable;
    match t
    case Stop =>
    case Input(f, _, floor, _, _) =>
      CameraCompletes(c, w, f, floor, writeOk, at);
      CameraCompletes(c, w, f, floor, true, 0);
    case Tick(_, floor, now, _, _) =>
      GapCompletes(c, w, floor, now, slateReady, writeOk);
      GapCompletes(c, w, floor, now, true, true);
  }

  /** A step shows at most one block, and only when the writer writes: the frame that had passed, against the floor it had
      passed at.  The floor never falls, and a new look is at the present floor. */
  lemma StepShows(s: Pipeline, e: Event)
    requires Inv(s) && Enabled(s, e)
    ensures var t := Step(s, e);
            && s.floor <= t.floor && s.shown <= t.shown && |t.shown| <= |s.shown| + 1
            && (!e.Write? ==> t.shown == s.shown)
            && (e.Write? ==> t.looked.None?)
            && (!e.Write? && s.looked.Some? ==> t.looked == s.looked && t.writer == s.writer && t.config == s.config)
            && (s.looked.None? && t.looked.Some? && !t.looked.value.Stop? ==> t.looked.value.floor == s.floor)
            && (|t.shown| > |s.shown| && !t.shown[|s.shown|].Slate? ==>
                  && s.looked.Some? && !s.looked.value.Stop? && t.shown[|s.shown|].floor == s.looked.value.floor
                  && Passing(s.config, s.writer, s.looked.value) == Some(t.shown[|s.shown|].frame))
  {
    hide Numbering, WorkOk, FrameOk, BlockOk, EgressWriter.Inv, EgressWriter.Step, Passing;
    if e.Write? {
      var t := Completed(s.looked.value, e.slateReady, e.writeOk, e.at);
      WrittenBlock(s, t);
      PassingIsShown(s.config, s.writer, s.looked.value, e.slateReady, e.writeOk, e.at);
    }
  }

  /** The frame of a block had passed the check before the floor rose to k, in the turn looked at but not yet written. */
  ghost predicate HadPassed(s: Pipeline, k: nat, b: Block) {
    && s.looked.Some? && !s.looked.value.Stop? && s.looked.value.floor < k
    && !b.Slate? && b.floor == s.looked.value.floor && Passing(s.config, s.writer, s.looked.value) == Some(b.frame)
  }

  /** A block shown from a state on, as block i: checked against at least k, or the one block that had already passed. */
  ghost predicate Later(s: Pipeline, k: nat, i: nat, b: Block) {
    b.Slate? || b.floor >= k || (i == |s.shown| && HadPassed(s, k, b))
  }

  lemma StepLater(s: Pipeline, e: Event, k: nat, i: nat, b: Block)
    requires Inv(s) && Enabled(s, e) && k <= s.floor && |s.shown| <= i
    requires if i < |Step(s, e).shown| then b == Step(s, e).shown[i] else Later(Step(s, e), k, i, b)
    ensures Later(s, k, i, b)
  {
    StepShows(s, e);
    hide Inv, Enabled, Step, Passing;
  }

  /** Over every run: the invariant holds, and whatever is shown later was checked against at least the present floor, except
      for at most one block, the first one, whose frame had already passed. */
  lemma {:induction false} RunKeeps(s: Pipeline, run: seq<Event>, k: nat)
    requires Inv(s) && Runs(s, run) && k <= s.floor
    ensures Inv(After(s, run)) && s.floor <= After(s, run).floor && s.shown <= After(s, run).shown
    ensures forall i :: |s.shown| <= i < |After(s, run).shown| ==> Later(s, k, i, After(s, run).shown[i])
    decreases |run|
  {
    hide Inv, Enabled, Step, Passing;
    if run != [] {
      var t := Step(s, run[0]);
      StepKeepsInv(s, run[0]);
      StepShows(s, run[0]);
      RunKeeps(t, run[1..], k);
      forall i | |s.shown| <= i < |After(s, run).shown|
        ensures Later(s, k, i, After(s, run).shown[i])
      {
        StepLater(s, run[0], k, i, After(s, run).shown[i]);
      }
    }
  }

  /** Treated wholly under the settings installed with the frame's own generation. */
  ghost predicate WhollyTreated(s: Pipeline, f: Frame) {
    && f.generation in s.installed && f.id in s.provenance
    && s.provenance[f.id] == Provenance(TreatmentUnder(s.installed[f.generation]), {s.installed[f.generation]})
  }

  /** Main theorem.  After InvalidateHeldFrame(g), along every run, each camera frame shown, fresh or repeated, was treated wholly
      under the settings installed with one generation, and that generation is g or later; except for at most one block, the
      first one, if its frame had passed the check before and was still to be written. */
  lemma InvalidationIsSound(s: Pipeline, g: nat, run: seq<Event>, i: nat)
    requires Inv(s) && g > 0 && Runs(Step(s, Invalidate(g)), run)
    requires |s.shown| <= i < |After(Step(s, Invalidate(g)), run).shown|
    ensures var t := After(Step(s, Invalidate(g)), run);
            || t.shown[i].Slate?
            || (t.shown[i].frame.generation >= g && WhollyTreated(t, t.shown[i].frame))
            || (i == |s.shown| && HadPassed(s, g, t.shown[i]))
  {
    hide Numbering, WorkOk, EgressWriter.Inv;
    StepKeepsInv(s, Invalidate(g));
    RunKeeps(Step(s, Invalidate(g)), run, g);
    var t := After(Step(s, Invalidate(g)), run);
    assert BlockOk(t.shown[i], t.stamped, t.floor);
    hide Passing;
    if !t.shown[i].Slate? {
      StampedIds(t, t.shown[i].frame.id);
    }
  }

  /** So without a turn that had looked and not yet written, nothing older is shown at all. */
  lemma NothingOlder(s: Pipeline, g: nat, run: seq<Event>, i: nat)
    requires Inv(s) && g > 0 && s.looked.None? && Runs(Step(s, Invalidate(g)), run)
    requires |s.shown| <= i < |After(Step(s, Invalidate(g)), run).shown|
    ensures var t := After(Step(s, Invalidate(g)), run);
            t.shown[i].Slate? || (t.shown[i].frame.generation >= g && WhollyTreated(t, t.shown[i].frame))
  {
    hide Inv, Enabled, Step, WhollyTreated;
    InvalidationIsSound(s, g, run, i);
  }

  /** A frame older than g has passed and is still to be written. */
  ghost predicate OlderOnItsWay(s: Pipeline, g: nat) {
    s.looked.Some? && Passing(s.config, s.writer, s.looked.value).Some? &&
    Passing(s.config, s.writer, s.looked.value).value.generation < g
  }

  ghost predicate ShowsOlder(s: Pipeline, g: nat, run: seq<Event>) {
    Runs(Step(s, Invalidate(g)), run) &&
    exists i :: |s.shown| <= i < |After(Step(s, Invalidate(g)), run).shown| &&
      !After(Step(s, Invalidate(g)), run).shown[i].Slate? && After(Step(s, Invalidate(g)), run).shown[i].frame.generation < g
  }

  lemma DueWriteShows(s: Pipeline, g: nat)
    requires OlderOnItsWay(s, g)
    ensures var s1 := Step(s, Invalidate(g));
            && Enabled(s1, Write(true, true, 0))
            && var shown := Step(s1, Write(true, true, 0)).shown;
               |shown| > |s.shown| && !shown[|s.shown|].Slate? && shown[|s.shown|].frame.generation < g
  {
    hide Passing, EgressWriter.Step;
    var s1 := Step(s, Invalidate(g));
    PassingIsShown(s1.config, s1.writer, s1.looked.value, true, true, 0);
    assert Step(s1, Write(true, true, 0)) == Written(s1, Completed(s.looked.value, true, true, 0));
  }

  /** The write that was due shows it after all. */
  lemma OlderSlipsThrough(s: Pipeline, g: nat)
    requires Inv(s) && OlderOnItsWay(s, g)
    ensures ShowsOlder(s, g, [Write(true, true, 0)])
  {
    DueWriteShows(s, g);
    hide Step, Enabled, OlderOnItsWay, Inv;
    var s1, e := Step(s, Invalidate(g)), Write(true, true, 0);
    assert Runs(Step(s1, e), []) && After(Step(s1, e), []) == Step(s1, e);
    Prepend(s1, e, []);
    assert [e] + [] == [e];
  }

  /** Exactly when some run after InvalidateHeldFrame(g) shows a camera frame older than g. */
  lemma OlderShownExactly(s: Pipeline, g: nat)
    requires Inv(s) && g > 0
    ensures (exists run :: ShowsOlder(s, g, run)) <==> OlderOnItsWay(s, g)
  {
    hide Inv, Step, WhollyTreated, Passing;
    if OlderOnItsWay(s, g) {
      OlderSlipsThrough(s, g);
    }
    forall run | ShowsOlder(s, g, run)
      ensures OlderOnItsWay(s, g)
    {
      var i :| |s.shown| <= i < |After(Step(s, Invalidate(g)), run).shown| &&
        !After(Step(s, Invalidate(g)), run).shown[i].Slate? && After(Step(s, Invalidate(g)), run).shown[i].frame.generation < g;
      InvalidationIsSound(s, g, run, i);
    }
  }

  /** If every generation from g on anonymizes or blurs, no untreated picture is shown after InvalidateHeldFrame(g), except for
      at most the one block that had already passed. */
  lemma NothingUntreated(s: Pipeline, g: nat, run: seq<Event>, i: nat)
    requires Inv(s) && g > 0 && Runs(Step(s, Invalidate(g)), run)
    requires |s.shown| <= i < |After(Step(s, Invalidate(g)), run).shown|
    requires var t := After(Step(s, Invalidate(g)), run);
             forall k :: k in t.installed && k >= g ==> t.installed[k].anonymize || t.installed[k].blur
    ensures var t := After(Step(s, Invalidate(g)), run);
            || t.shown[i].Slate?
            || (t.shown[i].frame.id in t.provenance && t.provenance[t.shown[i].frame.id].treatment != Original)
            || (i == |s.shown| && HadPassed(s, g, t.shown[i]))
  {
    hide Inv, Enabled, Step, Passing;
    InvalidationIsSound(s, g, run, i);
  }

  // ---------- An input ----------

  const TINY_JPEG: seq<Byte> := [0xff, 0xd8, 0xff, 0xd9]

  /** A processor with its first settings, and one frame as far as `w` says. */
  ghost function OneFrame(config: Config, w: Work): Pipeline {
    var settings := Settings(true, false, 0);
    Pipeline(1, map[1 := Processor(1, settings, false, Free)], map[7 := w], map[1 := settings], map[], map[], 0, config,
             Start(0, false), None, [])
  }

  lemma FrameAdvances(config: Config, w: Work)
    requires w.processor == 1 && !w.stage.Released?
    ensures Enabled(OneFrame(config, w), Advance(7))
    ensures var m := Moved(w, Processor(1, Settings(true, false, 0), false, Free));
            m.Some? ==> Step(OneFrame(config, w), Advance(7)) == OneFrame(config, m.value)
  {
  }

  /** From here on the frame passes every stage, is stamped with generation 1, and the writer looks at it. */
  lemma {:induction false} FrameReachesWriter(config: Config, w: Work) returns (run: seq<Event>)
    requires config.format.Jpeg? && config.width == config.height == 2
    requires w.processor == 1 && w.before == 1 && !w.stage.Treated?
    ensures Runs(OneFrame(config, w), run) && OlderOnItsWay(After(OneFrame(config, w), run), 2)
    decreases match w.stage case Waiting => 5 case Locked => 4 case Admitted => 3 case NotBlurred => 2 case Wanted => 1 case _ => 0
  {
    var s := OneFrame(config, w);
    if w.stage.Released? {
      run := StampedAndLooked(config, w);
    } else {
      FrameAdvances(config, w);
      var m := Moved(w, Processor(1, Settings(true, false, 0), false, Free)).value;
      if m.stage.Treated? {
        FrameAdvances(config, m);
        var last := Moved(m, Processor(1, Settings(true, false, 0), false, Free)).value;
        var rest := FrameReachesWriter(config, last);
        Prepend(OneFrame(config, m), Advance(7), rest);
        Prepend(s, Advance(7), [Advance(7)] + rest);
        run := [Advance(7)] + ([Advance(7)] + rest);
      } else {
        var rest := FrameReachesWriter(config, m);
        Prepend(s, Advance(7), rest);
        run := [Advance(7)] + rest;
      }
    }
  }

  lemma StampedAndLooked(config: Config, w: Work) returns (run: seq<Event>)
    requires config.format.Jpeg? && config.width == config.height == 2
    requires w.processor == 1 && w.before == 1 && w.stage.Released?
    ensures Runs(OneFrame(config, w), run) && OlderOnItsWay(After(OneFrame(config, w), run), 2)
  {
    var s := OneFrame(config, w);
    var stamp := Stamp(7, TINY_JPEG, 2, 2);
    var f := Frame(7, TINY_JPEG, 2, 2, 1);
    var look := Look(Input(f, false, 0, 0, true));
    var t := Step(s, stamp);
    assert t.stamped == map[7 := f] && t.writer == Start(0, false) && t.config == config && t.floor == 0;
    var u := Step(t, look);
    assert IsJpeg(TINY_JPEG);
    CameraCompletes(config, u.writer, f, 0, true, 0);
    assert Passing(u.config, u.writer, u.looked.value) == Some(f);
    assert Runs(u, []) && After(u, []) == u;
    hide Passing;
    Prepend(t, look, []);
    Prepend(s, stamp, [look] + []);
    run := [stamp] + ([look] + []);
  }

  /** A run from the start that leaves a frame of generation 1 checked and not yet written: when the settings then change and
      InvalidateHeldFrame(2) returns, OlderSlipsThrough says that this frame is still shown. */
  lemma OlderIsReachable(config: Config) returns (run: seq<Event>)
    requires config.format.Jpeg? && config.width == config.height == 2
    ensures Runs(Empty(config, 0), run) && OlderOnItsWay(After(Empty(config, 0), run), 2)
  {
    var s := Empty(config, 0);
    var s1 := Step(s, NewProcessor(1));
    var s2 := Step(s1, LoadGeneration(7, 1));
    var w := Work(1, 1, Waiting, 0, {});
    assert s2 == OneFrame(config, w);
    var rest := FrameReachesWriter(config, w);
    hide OlderOnItsWay;
    Prepend(s1, LoadGeneration(7, 1), rest);
    Prepend(s, NewProcessor(1), [LoadGeneration(7, 1)] + rest);
    run := [NewProcessor(1)] + ([LoadGeneration(7, 1)] + rest);
  }

  lemma EmptyInv(config: Config, now: int)
    ensures Inv(Empty(config, now))
  {
  }
}
