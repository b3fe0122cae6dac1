/** One-time refresh tokens of one connection, rotated by any number of processes (internal/auth/chzzk_connect.go) against a
    stored row changed by compare-and-set (internal/auth/streaming_account.go).  Every call to the store or the platform is one
    step; tokens stand for their ciphertexts, since each is encrypted once. */
module TokenRotation {
  import opened Basics

  type Token = nat

  /** The stored token and whether the row says that the user must reconnect. */
  datatype Row = Row(token: Token, marked: bool)

  /** Where a process stands.  The first five are AccessToken's loop; the last is a reconnect that has exchanged its code. */
  datatype Pc =
    | Fetching(attempt: nat)
    | Having(attempt: nat, used: Token, marked: bool)
    | Rejected(attempt: nat, used: Token)
    | Marking(used: Token)
    | Rotated(used: Token, issued: Token)
    | Keeping(used: Token, marked: bool)
    | Installing(issued: Token)

  /** `valid` is the one token the platform accepts. */
  datatype Connection = Connection(row: Option<Row>, valid: Token, next: Token, procs: map<nat, Pc>)

  datatype Event =
    | Start(p: nat)
    | Fetch(p: nat)
    | Refresh(p: nat, rotates: bool)
    | Fail(p: nat)
    | Recheck(p: nat)
    | Mark(p: nat)
    | Store(p: nat)
    | Clear(p: nat)
    | Exchange(p: nat)
    | Install(p: nat)

  // ---------- The stored row ----------

  /** UpdateRefreshToken: replaces the token only if it is still the one that was read. */
  function Swapped(row: Option<Row>, previous: Token, issued: Token): Option<Row> {
    if row.Some? && row.value.token == previous then Some(Row(issued, false)) else row
  }

  /** MarkReconnectRequired: marks only the token that was rejected. */
  function MarkedIf(row: Option<Row>, rejected: Token): Option<Row> {
    if row.Some? && row.value.token == rejected then Some(row.value.(marked := true)) else row
  }

  function Cleared(row: Option<Row>): Option<Row> {
    if row.Some? then Some(row.value.(marked := false)) else None
  }

  // ---------- Steps ----------

  /** A process may fail anywhere, also between being handed a token and storing it, and reconnects may overlap. */
  predicate Enabled(c: Connection, e: Event) {
    match e
    case Start(p) => p !in c.procs
    case Fetch(p) => p in c.procs && c.procs[p].Fetching?
    case Refresh(p, _) => p in c.procs && c.procs[p].Having?
    case Fail(p) => p in c.procs
    case Recheck(p) => p in c.procs && c.procs[p].Rejected?
    case Mark(p) => p in c.procs && c.procs[p].Marking?
    case Store(p) => p in c.procs && c.procs[p].Rotated?
    case Clear(p) => p in c.procs && c.procs[p].Keeping?
    case Exchange(p) => p !in c.procs
    case Install(p) => p in c.procs && c.procs[p].Installing?
  }

  function Fetched(c: Connection, p: nat, attempt: nat): Connection {
    if c.row.None? then c.(procs := c.procs - {p})
    else c.(procs := c.procs[p := Having(attempt, c.row.value.token, c.row.value.marked)])
  }

  /** The platform rejects every token but the valid one; it may hand out a new one for it. */
  function Refreshed(c: Connection, p: nat, attempt: nat, used: Token, marked: bool, rotates: bool): Connection {
    if used != c.valid then c.(procs := c.procs[p := Rejected(attempt, used)])
    else if rotates then c.(procs := c.procs[p := Rotated(used, c.next)], valid := c.next, next := c.next + 1)
    else c.(procs := c.procs[p := Keeping(used, marked)])
  }

  /** After a first rejection the row is read again: another token there is worth a second attempt. */
  function Rechecked(c: Connection, p: nat, attempt: nat, used: Token): Connection {
    if attempt == 1 && c.row.Some? && c.row.value.token != used then c.(procs := c.procs[p := Fetching(2)])
    else c.(procs := c.procs[p := Marking(used)])
  }

  function Step(c: Connection, e: Event): Connection
    requires Enabled(c, e)
  {
    match e
    case Start(p) => c.(procs := c.procs[p := Fetching(1)])
    case Fetch(p) => Fetched(c, p, c.procs[p].attempt)
    case Refresh(p, rotates) => Refreshed(c, p, c.procs[p].attempt, c.procs[p].used, c.procs[p].marked, rotates)
    case Fail(p) => c.(procs := c.procs - {p})
    case Recheck(p) => Rechecked(c, p, c.procs[p].attempt, c.procs[p].used)
    case Mark(p) => c.(row := MarkedIf(c.row, c.procs[p].used), procs := c.procs - {p})
    case Store(p) => c.(row := Swapped(c.row, c.procs[p].used, c.procs[p].issued), procs := c.procs - {p})
    case Clear(p) => c.(row := if c.procs[p].marked then Cleared(c.row) else c.row, procs := c.procs - {p})
    case Exchange(p) => c.(procs := c.procs[p := Installing(c.next)], valid := c.next, next := c.next + 1)
    case Install(p) => c.(row := Some(Row(c.procs[p].issued, false)), procs := c.procs - {p})
  }

  function Unconnected(): Connection { Connection(None, 0, 1, map[]) }

  // ---------- Invariant ----------

  predicate Issued(pc: Pc) { pc.Rotated? || pc.Installing? }

  /** A process whose next store puts the valid token into the row. */
  predicate Installs(pc: Pc, row: Option<Row>, valid: Token) {
    || (pc.Installing? && pc.issued == valid)
    || (pc.Rotated? && pc.issued == valid && row.Some? && row.value.token == pc.used)
  }

  /** What is true of one process: a rejected token is not valid, a marked one was not, and an issued one was never stored. */
  ghost predicate PcOk(pc: Pc, row: Option<Row>, valid: Token, next: Token) {
    match pc
    case Fetching(_) => true
    case Having(_, used, marked) => used < next && row.Some? && (used == valid ==> !marked)
    case Rejected(_, used) => used < next && used != valid
    case Marking(used) => used < next && used != valid
    case Rotated(used, issued) => used < next && issued < next && used != valid && used != issued && row.Some? && row.value.token != issued
    case Keeping(used, marked) => used < next && !marked
    case Installing(issued) => issued < next && (row.Some? ==> row.value.token != issued)
  }

  /** No two processes were handed the same token, no token was consumed twice, and nobody has read one not yet stored. */
  predicate Apart(a: Pc, b: Pc) {
    && (Issued(a) && Issued(b) ==> a.issued != b.issued)
    && (a.Rotated? && b.Rotated? ==> a.used != b.used)
    && (Issued(a) && (b.Having? || b.Rotated?) ==> b.used != a.issued)
  }

  ghost predicate AllApart(procs: map<nat, Pc>) {
    forall p, q :: p in procs && q in procs && p != q ==> Apart(procs[p], procs[q])
  }

  ghost predicate Inv(c: Connection) {
    && c.valid < c.next && (c.row.Some? ==> c.row.value.token < c.next)
    && (forall p :: p in c.procs ==> PcOk(c.procs[p], c.row, c.valid, c.next))
    && AllApart(c.procs)
    && (c.row.Some? && c.row.value.marked ==> c.row.value.token != c.valid)
  }

  /** A process may leave, or move to any place that is right for it. */
  lemma ProcMoves(c: Connection, p: nat, pc: Pc)
    requires Inv(c) && !Issued(pc) && PcOk(pc, c.row, c.valid, c.next)
    requires pc.Having? ==> c.row.Some? && pc.used == c.row.value.token
    ensures Inv(c.(procs := c.procs[p := pc])) && Inv(c.(procs := c.procs - {p}))
  {
    forall q | q in c.procs
      ensures Apart(pc, c.procs[q]) && Apart(c.procs[q], pc)
    {
      assert PcOk(c.procs[q], c.row, c.valid, c.next);
    }
  }

  lemma ReadingKeeps(c: Connection, e: Event)
    requires Inv(c) && Enabled(c, e) && (e.Start? || e.Fetch? || e.Recheck? || e.Fail?)
    ensures Inv(Step(c, e))
  {
    assert e.p in c.procs ==> PcOk(c.procs[e.p], c.row, c.valid, c.next);
    var pc := if e.Fetch? && c.row.Some? then Having(c.procs[e.p].attempt, c.row.value.token, c.row.value.marked)
              else if e.Recheck? && !(c.procs[e.p].attempt == 1 && c.row.Some? && c.row.value.token != c.procs[e.p].used)
              then Marking(c.procs[e.p].used)
              else Fetching(if e.Recheck? then 2 else 1);
    ProcMoves(c, e.p, pc);
    hide Inv;
  }

  /** The process that rotates a token is handed one that nobody has seen, for a token that nobody else has rotated. */
  lemma RotateKeeps(c: Connection, p: nat)
    requires Inv(c) && p in c.procs && c.procs[p].Having? && c.procs[p].used == c.valid
    ensures Inv(c.(procs := c.procs[p := Rotated(c.valid, c.next)], valid := c.next, next := c.next + 1))
  {
    var c' := c.(procs := c.procs[p := Rotated(c.valid, c.next)], valid := c.next, next := c.next + 1);
    assert PcOk(c.procs[p], c.row, c.valid, c.next);
    forall q | q in c'.procs
      ensures PcOk(c'.procs[q], c'.row, c'.valid, c'.next)
    {
      assert PcOk(c.procs[q], c.row, c.valid, c.next);
    }
    forall q | q in c.procs && q != p
      ensures Apart(c'.procs[p], c'.procs[q]) && Apart(c'.procs[q], c'.procs[p])
    {
      assert PcOk(c.procs[q], c.row, c.valid, c.next) && Apart(c.procs[q], c.procs[p]);
    }
  }

  lemma RefreshKeeps(c: Connection, p: nat, rotates: bool)
    requires Inv(c) && Enabled(c, Refresh(p, rotates))
    ensures Inv(Step(c, Refresh(p, rotates)))
  {
    assert PcOk(c.procs[p], c.row, c.valid, c.next);
    if c.procs[p].used == c.valid && rotates {
      RotateKeeps(c, p);
    } else if c.procs[p].used == c.valid {
      ProcMoves(c, p, Keeping(c.procs[p].used, c.procs[p].marked));
    } else {
      ProcMoves(c, p, Rejected(c.procs[p].attempt, c.procs[p].used));
    }
    hide Inv;
  }

  /** Marking, clearing and storing look at the row's token first. */
  lemma WritingKeeps(c: Connection, e: Event)
    requires Inv(c) && Enabled(c, e) && (e.Mark? || e.Clear? || e.Store? || e.Install?)
    ensures Inv(Step(c, e))
  {
    var c' := Step(c, e);
    assert PcOk(c.procs[e.p], c.row, c.valid, c.next);
    forall q | q in c'.procs
      ensures PcOk(c'.procs[q], c'.row, c'.valid, c'.next)
    {
      assert PcOk(c.procs[q], c.row, c.valid, c.next) && Apart(c.procs[e.p], c.procs[q]);
    }
  }

  lemma ExchangeKeeps(c: Connection, p: nat)
    requires Inv(c) && Enabled(c, Exchange(p))
    ensures Inv(Step(c, Exchange(p)))
  {
    var c' := Step(c, Exchange(p));
    forall q | q in c'.procs
      ensures PcOk(c'.procs[q], c'.row, c'.valid, c'.next)
    {
      if q != p {
        assert PcOk(c.procs[q], c.row, c.valid, c.next);
      }
    }
    forall q | q in c.procs
      ensures Apart(c'.procs[p], c'.procs[q]) && Apart(c'.procs[q], c'.procs[p])
    {
      assert PcOk(c.procs[q], c.row, c.valid, c.next);
    }
  }

  lemma StepKeepsInv(c: Connection, e: Event)
    requires Inv(c) && Enabled(c, e)
    ensures Inv(Step(c, e))
  {
    hide Inv;
    match e
    case Refresh(p, rotates) => RefreshKeeps(c, p, rotates);
    case Exchange(p) => ExchangeKeeps(c, p);
    case _ =>
      if e.Mark? || e.Clear? || e.Store? || e.Install? {
        WritingKeeps(c, e);
      } else {
        ReadingKeeps(c, e);
      }
  }

  // ---------- Whatever happens ----------

  /** A stored token that is valid is replaced by nobody but a reconnect, and is never marked. */
  lemma ValidTokenStays(c: Connection, e: Event)
    requires Inv(c) && Enabled(c, e) && c.row.Some? && c.row.value.token == c.valid && !e.Install?
    ensures Step(c, e).row == c.row && !c.row.value.marked
  {
    if e.Store? || e.Mark? || e.Clear? {
      assert PcOk(c.procs[e.p], c.row, c.valid, c.next);
    }
  }

  /** A rejected token stays rejected: the platform never accepts an old token again, so a mark is never wrong. */
  lemma RejectedForGood(c: Connection, e: Event, old_: Token)
    requires Inv(c) && Enabled(c, e) && old_ < c.next && old_ != c.valid
    ensures old_ < Step(c, e).next && old_ != Step(c, e).valid
  {
  }

  ghost predicate Runs(c: Connection, run: seq<Event>)
    decreases |run|
  {
    run == [] || (Enabled(c, run[0]) && Runs(Step(c, run[0]), run[1..]))
  }

  ghost function After(c: Connection, run: seq<Event>): Connection
    requires Runs(c, run)
    decreases |run|
  {
    if run == [] then c else After(Step(c, run[0]), run[1..])
  }

  /** Over every run, failures and overlapping reconnects included; so a connection is never marked while its token is valid. */
  lemma {:induction false} RunKeepsInv(c: Connection, run: seq<Event>)
    requires Inv(c) && Runs(c, run)
    ensures Inv(After(c, run))
    decreases |run|
  {
    hide Inv, Step, Enabled;
    if run != [] {
      StepKeepsInv(c, run[0]);
      RunKeepsInv(Step(c, run[0]), run[1..]);
    }
  }

  // ---------- When a connection is lost ----------

  /** Nobody will ever store the valid token again. */
  ghost predicate Lost(c: Connection) {
    c.row.Some? && c.row.value.token != c.valid && forall p :: p in c.procs ==> !Installs(c.procs[p], c.row, c.valid)
  }

  /** Until the connection is lost, whenever the stored token is not the valid one, exactly one process in flight will store the
      valid one, and it will succeed: its next step makes the stored token valid and unmarked. */
  lemma ExactlyOneInstaller(c: Connection)
    requires Inv(c) && c.row.Some? && c.row.value.token != c.valid && !Lost(c)
    ensures exists p ::
              && p in c.procs && Installs(c.procs[p], c.row, c.valid)
              && (forall q :: q in c.procs && Issued(c.procs[q]) && c.procs[q].issued == c.valid ==> q == p)
              && (c.procs[p].Rotated? ==> Step(c, Store(p)).row == Some(Row(c.valid, false)))
              && (c.procs[p].Installing? ==> Step(c, Install(p)).row == Some(Row(c.valid, false)))
  {
    var p :| p in c.procs && Installs(c.procs[p], c.row, c.valid);
    forall q | q in c.procs && Issued(c.procs[q]) && c.procs[q].issued == c.valid
      ensures q == p
    {
      assert q != p ==> Apart(c.procs[p], c.procs[q]);
    }
  }

  /** The three ways to lose a connection: the installer fails; a token is rotated that is no longer the stored one; or a
      reconnect stores an outdated token while no reconnect is left with the newest. */
  ghost predicate Loses(c: Connection, e: Event)
    requires Enabled(c, e)
  {
    match e
    case Fail(p) => c.row.Some? && Installs(c.procs[p], c.row, c.valid)
    case Refresh(p, rotates) => rotates && c.procs[p].used == c.valid && c.row.Some? && c.row.value.token != c.valid
    case Install(p) => c.procs[p].issued != c.valid && forall q :: q in c.procs && c.procs[q].Installing? ==> c.procs[q].issued != c.valid
    case _ => false
  }

  /** An installer that the step leaves alone is still one. */
  lemma InstallerStays(c: Connection, e: Event, q: nat)
    requires Inv(c) && Enabled(c, e) && q in c.procs && Installs(c.procs[q], c.row, c.valid) && !Loses(c, e)
    requires !(e.Fail? && e.p == q)
    ensures !Lost(Step(c, e))
  {
    var c' := Step(c, e);
    assert PcOk(c.procs[q], c.row, c.valid, c.next);
    assert e.p in c.procs ==> PcOk(c.procs[e.p], c.row, c.valid, c.next) && (e.p != q ==> Apart(c.procs[e.p], c.procs[q]));
    if e.Exchange? {
      assert Installs(c'.procs[e.p], c'.row, c'.valid);
    } else if e.Install? && c.procs[e.p].issued != c.valid {
      var i :| i in c.procs && c.procs[i].Installing? && c.procs[i].issued == c.valid;
      assert Installs(c'.procs[i], c'.row, c'.valid);
    } else if e.p != q {
      assert c'.row.Some? && c'.row.value.token != c'.valid ==> q in c'.procs && Installs(c'.procs[q], c'.row, c'.valid);
    }
  }

  /** With a valid token stored, or none, only a reconnect that stores an outdated token can lose the connection. */
  lemma StoredStays(c: Connection, e: Event)
    requires Inv(c) && Enabled(c, e) && (c.row.None? || c.row.value.token == c.valid) && !Loses(c, e)
    ensures !Lost(Step(c, e))
  {
    var c' := Step(c, e);
    assert e.p in c.procs ==> PcOk(c.procs[e.p], c.row, c.valid, c.next);
    if e.Exchange? || (e.Refresh? && c'.valid != c.valid) {
      assert Installs(c'.procs[e.p], c'.row, c'.valid);
    } else if e.Install? && c.procs[e.p].issued != c.valid {
      var i :| i in c.procs && c.procs[i].Installing? && c.procs[i].issued == c.valid;
      assert Installs(c'.procs[i], c'.row, c'.valid);
    }
  }

  /** Each of the three does lose it. */
  lemma LosingLoses(c: Connection, e: Event)
    requires Inv(c) && Enabled(c, e) && Loses(c, e)
    ensures Lost(Step(c, e))
  {
    var c' := Step(c, e);
    assert PcOk(c.procs[e.p], c.row, c.valid, c.next);
    forall q | q in c'.procs
      ensures !Installs(c'.procs[q], c'.row, c'.valid)
    {
      assert PcOk(c.procs[q], c.row, c.valid, c.next) && (e.p != q ==> Apart(c.procs[e.p], c.procs[q]));
    }
  }

  /** A connection is lost by a step exactly when the step is one of the three. */
  lemma LosesExactly(c: Connection, e: Event)
    requires Inv(c) && Enabled(c, e) && !Lost(c)
    ensures Lost(Step(c, e)) <==> Loses(c, e)
  {
    hide Inv, Step;
    if Loses(c, e) {
      LosingLoses(c, e);
    } else if c.row.Some? && c.row.value.token != c.valid {
      var q :| q in c.procs && Installs(c.procs[q], c.row, c.valid);
      InstallerStays(c, e, q);
    } else {
      StoredStays(c, e);
    }
  }

  /** A lost connection comes back through a reconnect alone. */
  lemma LostUntilReconnect(c: Connection, e: Event)
    requires Inv(c) && Enabled(c, e) && Lost(c) && !e.Exchange?
    ensures Lost(Step(c, e))
  {
    var c' := Step(c, e);
    assert e.p in c.procs ==> PcOk(c.procs[e.p], c.row, c.valid, c.next);
    assert e.p in c.procs ==> !Installs(c.procs[e.p], c.row, c.valid);
    forall q | q in c'.procs
      ensures !Installs(c'.procs[q], c'.row, c'.valid)
    {
      if q in c.procs {
        assert PcOk(c.procs[q], c.row, c.valid, c.next) && !Installs(c.procs[q], c.row, c.valid);
        assert e.p in c.procs && e.p != q ==> Apart(c.procs[e.p], c.procs[q]);
      }
    }
  }

  /** No state of the run is lost. */
  ghost predicate Lasts(c: Connection, run: seq<Event>)
    requires Runs(c, run)
    decreases |run|
  {
    !Lost(c) && (run == [] || Lasts(Step(c, run[0]), run[1..]))
  }

  ghost predicate NoneLoses(c: Connection, run: seq<Event>)
    requires Runs(c, run)
    decreases |run|
  {
    run == [] || (!Loses(c, run[0]) && NoneLoses(Step(c, run[0]), run[1..]))
  }

  lemma {:induction false} LastsExactly(c: Connection, run: seq<Event>)
    requires Inv(c) && Runs(c, run) && !Lost(c)
    ensures Lasts(c, run) <==> NoneLoses(c, run)
    decreases |run|
  {
    hide Inv, Step, Enabled, Lost, Loses;
    if run != [] {
      LosesExactly(c, run[0]);
      StepKeepsInv(c, run[0]);
      if !Loses(c, run[0]) {
        LastsExactly(Step(c, run[0]), run[1..]);
      }
    }
  }

  // ---------- Careful runs ----------

  /** No process fails between being handed a token and storing it, and one reconnect is under way at a time. */
  ghost predicate Careful(c: Connection, e: Event)
    requires Enabled(c, e)
  {
    && (e.Fail? ==> !Issued(c.procs[e.p]))
    && (e.Exchange? ==> forall q :: q in c.procs ==> !c.procs[q].Installing?)
  }

  /** Then a token that was read and is still valid is still the stored one, and a reconnect under way has the newest token. */
  predicate FreshPc(pc: Pc, row: Option<Row>, valid: Token) {
    && (pc.Having? && pc.used == valid ==> row.Some? && row.value.token == valid)
    && (pc.Installing? ==> pc.issued == valid)
  }

  ghost predicate Fresh(c: Connection) { forall p :: p in c.procs ==> FreshPc(c.procs[p], c.row, c.valid) }

  lemma CarefulStays(c: Connection, e: Event)
    requires Inv(c) && Fresh(c) && Enabled(c, e) && Careful(c, e)
    ensures Fresh(Step(c, e)) && !Loses(c, e)
  {
    var c' := Step(c, e);
    assert e.p in c.procs ==> PcOk(c.procs[e.p], c.row, c.valid, c.next) && FreshPc(c.procs[e.p], c.row, c.valid);
    forall q | q in c'.procs
      ensures FreshPc(c'.procs[q], c'.row, c'.valid)
    {
      if q in c.procs {
        assert PcOk(c.procs[q], c.row, c.valid, c.next) && FreshPc(c.procs[q], c.row, c.valid);
        assert e.p in c.procs && e.p != q ==> Apart(c.procs[q], c.procs[e.p]);
      }
    }
  }

  ghost predicate CarefulRun(c: Connection, run: seq<Event>)
    requires Runs(c, run)
    decreases |run|
  {
    run == [] || (Careful(c, run[0]) && CarefulRun(Step(c, run[0]), run[1..]))
  }

  lemma {:induction false} CarefulNeverLoses(c: Connection, run: seq<Event>)
    requires Inv(c) && Fresh(c) && Runs(c, run) && CarefulRun(c, run)
    ensures NoneLoses(c, run)
    decreases |run|
  {
    hide Inv, Fresh, Step, Enabled, Careful, Loses;
    if run != [] {
      CarefulStays(c, run[0]);
      StepKeepsInv(c, run[0]);
      CarefulNeverLoses(Step(c, run[0]), run[1..]);
    }
  }

  /** Main theorem, over every run from a connection that does not exist yet: it is never marked while its stored token is
      valid; it is lost in no state if and only if no step is one of the three; and a careful run has no such step. */
  lemma NeverLost(run: seq<Event>)
    requires Runs(Unconnected(), run)
    ensures var c := After(Unconnected(), run); c.row.Some? && c.row.value.marked ==> c.row.value.token != c.valid
    ensures Lasts(Unconnected(), run) <==> NoneLoses(Unconnected(), run)
    ensures CarefulRun(Unconnected(), run) ==> Lasts(Unconnected(), run)
  {
    RunKeepsInv(Unconnected(), run);
    LastsExactly(Unconnected(), run);
    if CarefulRun(Unconnected(), run) {
      CarefulNeverLoses(Unconnected(), run);
    }
  }

  // ---------- The three ways happen ----------

  lemma Prepend(c: Connection, e: Event, run: seq<Event>)
    requires Enabled(c, e) && Runs(Step(c, e), run)
    ensures Runs(c, [e] + run) && After(c, [e] + run) == After(Step(c, e), run)
  {
    assert ([e] + run)[1..] == run;
  }

  function Connected(): Connection { Connection(Some(Row(1, false)), 1, 2, map[]) }

  lemma FromConnected(run: seq<Event>)
    requires Runs(Connected(), run)
    ensures Runs(Unconnected(), [Exchange(1)] + ([Install(1)] + run))
    ensures After(Unconnected(), [Exchange(1)] + ([Install(1)] + run)) == After(Connected(), run)
  {
    var c := Step(Unconnected(), Exchange(1));
    assert Step(c, Install(1)) == Connected();
    Prepend(c, Install(1), run);
    Prepend(Unconnected(), Exchange(1), [Install(1)] + run);
  }

  /** Two reconnects that store in the wrong order. */
  lemma TwoReconnects()
    ensures var run := [Exchange(1)] + ([Install(1)] + ([Exchange(7)] + ([Exchange(8)] + ([Install(8)] + [Install(7)]))));
            Runs(Unconnected(), run) && Lost(After(Unconnected(), run))
  {
    var a := Step(Connected(), Exchange(7));
    var b := Step(a, Exchange(8));
    var c := Step(b, Install(8));
    assert c == Connection(Some(Row(3, false)), 3, 4, map[7 := Installing(2)]);
    var d := Step(c, Install(7));
    assert d == Connection(Some(Row(2, false)), 3, 4, map[]);
    assert Runs(d, []) && After(d, []) == d;
    Prepend(c, Install(7), []);
    assert [Install(7)] + [] == [Install(7)];
    Prepend(b, Install(8), [Install(7)]);
    Prepend(a, Exchange(8), [Install(8)] + [Install(7)]);
    Prepend(Connected(), Exchange(7), [Exchange(8)] + ([Install(8)] + [Install(7)]));
    FromConnected([Exchange(7)] + ([Exchange(8)] + ([Install(8)] + [Install(7)])));
  }

  /** A process that fails after its rotation. */
  lemma FailureLoses()
    ensures var run := [Exchange(1)] + ([Install(1)] + ([Start(2)] + ([Fetch(2)] + ([Refresh(2, true)] + [Fail(2)]))));
            Runs(Unconnected(), run) && Lost(After(Unconnected(), run))
  {
    var a := Step(Connected(), Start(2));
    var b := Step(a, Fetch(2));
    var c := Step(b, Refresh(2, true));
    assert c == Connection(Some(Row(1, false)), 2, 3, map[2 := Rotated(1, 2)]);
    var d := Step(c, Fail(2));
    assert d == Connection(Some(Row(1, false)), 2, 3, map[]);
    assert Runs(d, []) && After(d, []) == d;
    Prepend(c, Fail(2), []);
    assert [Fail(2)] + [] == [Fail(2)];
    Prepend(b, Refresh(2, true), [Fail(2)]);
    Prepend(a, Fetch(2), [Refresh(2, true)] + [Fail(2)]);
    Prepend(Connected(), Start(2), [Fetch(2)] + ([Refresh(2, true)] + [Fail(2)]));
    FromConnected([Start(2)] + ([Fetch(2)] + ([Refresh(2, true)] + [Fail(2)])));
  }

  // ---------- Step by step ----------

  /** What each step does to the stored row. */
  lemma RowMoves(c: Connection, e: Event)
    requires Enabled(c, e)
    ensures var row' := Step(c, e).row;
            match e
            case Install(p) => row' == Some(Row(c.procs[p].issued, false))
            case Store(p) =>
              row' == if c.row.Some? && c.row.value.token == c.procs[p].used then Some(Row(c.procs[p].issued, false)) else c.row
            case Mark(p) =>
              row' == if c.row.Some? && c.row.value.token == c.procs[p].used then Some(Row(c.row.value.token, true)) else c.row
            case Clear(p) =>
              row' == if c.row.Some? && c.procs[p].marked then Some(Row(c.row.value.token, false)) else c.row
            case _ => row' == c.row
  {
  }

  /** The platform hands out a new token for the valid one, if it rotates, and for a new authorization; the old one is dead. */
  lemma ValidMoves(c: Connection, e: Event)
    requires Enabled(c, e)
    ensures var rotates := e.Exchange? || (e.Refresh? && e.rotates && c.procs[e.p].used == c.valid);
            && Step(c, e).valid == (if rotates then c.next else c.valid) && Step(c, e).next == (if rotates then c.next + 1 else c.next)
            && (e.Refresh? && rotates ==> Step(c, e).procs[e.p] == Rotated(c.valid, c.next))
            && (e.Exchange? ==> Step(c, e).procs[e.p] == Installing(c.next))
  {
  }

  /** Where a process goes next: a rejected token is worth a second attempt exactly once, and only if another one is stored. */
  lemma ProcessMoves(c: Connection, e: Event)
    requires Enabled(c, e) && !(e.Refresh? && c.procs[e.p].used == c.valid && e.rotates) && !e.Exchange?
    ensures var procs' := Step(c, e).procs;
            match e
            case Start(p) => procs' == c.procs[p := Fetching(1)]
            case Fetch(p) =>
              procs' == if c.row.Some? then c.procs[p := Having(c.procs[p].attempt, c.row.value.token, c.row.value.marked)] else c.procs - {p}
            case Refresh(p, _) =>
              procs' == if c.procs[p].used == c.valid then c.procs[p := Keeping(c.procs[p].used, c.procs[p].marked)]
                        else c.procs[p := Rejected(c.procs[p].attempt, c.procs[p].used)]
            case Recheck(p) =>
              procs' == if c.procs[p].attempt == 1 && c.row.Some? && c.row.value.token != c.procs[p].used then c.procs[p := Fetching(2)]
                        else c.procs[p := Marking(c.procs[p].used)]
            case _ => procs' == c.procs - {e.p}
  {
  }
}
