/** What each guest operation answers and changes, and where every guest session comes from. */
module GuestAnswers {
  import opened Basics
  import opened GuestAdmission

  // ---------- Consuming ----------

  /** The guest's own ticket, admitted, shown with the right token, while guest sessions are below the limit. */
  predicate Entitled(s: Queue, c: Config, g: Guest, tokenOk: bool, id: Id) {
    && tokenOk && |s.sessions| < c.maxGuests
    && g in s.byGuest && s.byGuest[g].id == id
    && id in s.tickets && s.tickets[id].guest == g && s.tickets[id].status == Admitted
  }

  /** A consumption is accepted exactly for such a ticket; anything else leaves the queue as it was. */
  lemma AcceptedExactly(s: Queue, c: Config, g: Guest, tokenOk: bool, ending: Ending)
    ensures Claims(s, c, g, tokenOk) <==> exists id :: Entitled(s, c, g, tokenOk, id)
    ensures (forall id :: !Entitled(s, c, g, tokenOk, id)) ==> Step(s, c, Consume(g, tokenOk, ending)) == s
  {
    if Claims(s, c, g, tokenOk) {
      assert Entitled(s, c, g, tokenOk, s.byGuest[g].id);
    }
  }

  /** A wrong token, a ticket that is not admitted, somebody else's ticket, or no room: nothing happens. */
  lemma RefusedChangesNothing(s: Queue, c: Config, g: Guest, tokenOk: bool, ending: Ending)
    requires || !tokenOk || |s.sessions| >= c.maxGuests || g !in s.byGuest || s.byGuest[g].id !in s.tickets
             || s.tickets[s.byGuest[g].id].status != Admitted || s.tickets[s.byGuest[g].id].guest != g
    ensures Step(s, c, Consume(g, tokenOk, ending)) == s
  {
  }

  /** An accepted consumption touches one ticket, its guest's index entry and its reservation. */
  ghost predicate OneTicketMoves(s: Queue, t: Queue, g: Guest, id: Id) {
    && t.now == s.now && t.waiting == s.waiting && t.usedIds == s.usedIds
    && id in t.tickets && t.tickets == s.tickets[id := t.tickets[id]] && t.tickets[id].guest == g
    && t.byGuest == s.byGuest[g := Index(id, t.tickets[id].until)]
    && t.reservations - {id} == s.reservations - {id}
  }

  lemma SetMovesOne(s: Queue, t: Queue, g: Guest, id: Id, status: Status, until: int)
    requires g in s.byGuest && s.byGuest[g].id == id && id in s.tickets && s.tickets[id].guest == g
    requires var u := SetTicket(s, g, id, status, until);
             t == u.(reservations := t.reservations, sessions := t.sessions, usedSids := t.usedSids, served := t.served)
    requires t.reservations == s.reservations || t.reservations == s.reservations - {id} || t.reservations == s.reservations[id := until]
    ensures OneTicketMoves(s, t, g, id)
  {
    assert s.reservations[id := until] - {id} == s.reservations - {id};
    assert (s.reservations - {id}) - {id} == s.reservations - {id};
  }

  lemma SessionMovesNone(s: Queue, t: Queue, g: Guest, id: Id, sid: Sid, session: Session)
    requires OneTicketMoves(s, t, g, id)
    ensures OneTicketMoves(s, WithSession(t, sid, session), g, id)
  {
  }

  lemma ScriptsMoveOne(s: Queue, c: Config, g: Guest, id: Id, sid: Sid)
    requires Entitled(s, c, g, true, id)
    ensures OneTicketMoves(s, UsedUp(s, c, g, id, sid), g, id) && OneTicketMoves(s, Restored(s, c, g, id), g, id)
    ensures OneTicketMoves(s, SetTicket(s, g, id, Consuming, s.now + c.admissionTTL), g, id)
  {
    hide SetTicket, OneTicketMoves;
    SetMovesOne(s, UsedUp(s, c, g, id, sid), g, id, Consumed(sid), s.now + c.sessionTTL);
    SetMovesOne(s, Restored(s, c, g, id), g, id, Admitted, s.now + c.admissionTTL);
    SetTicketReservations(s, g, id, Consuming, s.now + c.admissionTTL);
    SetMovesOne(s, SetTicket(s, g, id, Consuming, s.now + c.admissionTTL), g, id, Consuming, s.now + c.admissionTTL);
  }

  lemma ConsumeMovesOne(s: Queue, c: Config, g: Guest, id: Id, ending: Ending)
    requires Entitled(s, c, g, true, id)
    ensures OneTicketMoves(s, Step(s, c, Consume(g, true, ending)), g, id)
  {
    hide SetTicket, OneTicketMoves, UsedUp, Restored, WithSession;
    var sid := if NewSid(ending).Some? then NewSid(ending).value else 0;
    ScriptsMoveOne(s, c, g, id, sid);
    var t := match ending
             case Completes(_) => UsedUp(s, c, g, id, sid)
             case LateReply(_) => UsedUp(s, c, g, id, sid)
             case NoSession => Restored(s, c, g, id)
             case Undone(_) => Restored(s, c, g, id)
             case Stranded(_) => SetTicket(s, g, id, Consuming, s.now + c.admissionTTL);
    SessionMovesNone(s, t, g, id, sid, Session(g, id, !ending.Completes?));
  }

  lemma SetTicketReservations(s: Queue, g: Guest, id: Id, status: Status, until: int)
    requires id in s.tickets
    ensures SetTicket(s, g, id, status, until).reservations == s.reservations
  {
  }

  /** What becomes of the ticket, its reservation and the sessions, by the ending. */
  lemma ConsumeEffects(s: Queue, c: Config, g: Guest, id: Id, ending: Ending)
    requires Entitled(s, c, g, true, id)
    ensures var t := Step(s, c, Consume(g, true, ending));
            id in t.tickets &&
            match ending
            case Completes(sid) =>
              && t.tickets[id] == Ticket(g, Consumed(sid), s.now + c.sessionTTL) && id !in t.reservations
              && t.sessions == s.sessions[sid := Session(g, id, false)]
            case LateReply(sid) =>
              && t.tickets[id] == Ticket(g, Consumed(sid), s.now + c.sessionTTL) && id !in t.reservations
              && t.sessions == s.sessions[sid := Session(g, id, true)]
            case NoSession =>
              && t.tickets[id] == Ticket(g, Admitted, s.now + c.admissionTTL)
              && id in t.reservations && t.reservations[id] == s.now + c.admissionTTL && t.sessions == s.sessions
            case Undone(sid) =>
              && t.tickets[id] == Ticket(g, Admitted, s.now + c.admissionTTL)
              && id in t.reservations && t.reservations[id] == s.now + c.admissionTTL
              && t.sessions == s.sessions[sid := Session(g, id, true)]
            case Stranded(left) =>
              && t.tickets[id] == Ticket(g, Consuming, s.now + c.admissionTTL) && t.reservations == s.reservations
              && t.sessions == if left.Some? then s.sessions[left.value := Session(g, id, true)] else s.sessions
  {
  }

  /** Somewhere in the run the session was made by its guest's consumption of an admitted ticket with the right token. */
  ghost predicate Earned(s: Queue, c: Config, run: seq<Event>, sid: Sid, session: Session)
    decreases |run|
  {
    run != [] &&
    ((run[0] == Consume(session.guest, true, Completes(sid)) && Entitled(s, c, session.guest, true, session.ticket)) ||
     Earned(Step(s, c, run[0]), c, run[1..], sid, session))
  }

  /** Only a completed consumption adds a session that stays. */
  lemma NewSurvivor(s: Queue, c: Config, e: Event, sid: Sid)
    requires Timed(c) && Inv(s) && sid in Step(s, c, e).sessions && !Step(s, c, e).sessions[sid].doomed
    ensures var session := Step(s, c, e).sessions[sid];
            || (sid in s.sessions && s.sessions[sid] == session)
            || (e == Consume(session.guest, true, Completes(sid)) && Entitled(s, c, session.guest, true, session.ticket))
  {
    hide Inv;
    match e
    case Consume(g, tokenOk, ending) =>
      if Claims(s, c, g, tokenOk) {
        ConsumeEffects(s, c, g, s.byGuest[g].id, ending);
      }
    case Sweep(active, limit) => AdmissionSessions(s, c, active, limit);
    case CreateOrGet(g, id, score, allowed, active, limit) => CreateSessions(s, c, e);
    case _ =>
  }

  lemma AdmissionSessions(s: Queue, c: Config, active: nat, limit: nat)
    ensures CleanedAndAdmitted(s, c, active, limit).sessions == s.sessions
  {
    AdmitAllSessions(Cleaned(s), c, active, limit);
  }

  lemma {:induction false} AdmitAllSessions(s: Queue, c: Config, active: nat, limit: nat)
    ensures AdmitAll(s, c, active, limit).sessions == s.sessions
    decreases |s.waiting|
  {
    if s.waiting != map[] && HasRoom(s, c, active, limit) {
      Shorter(s.waiting, Head(s.waiting));
      AdmitAllSessions(HeadTaken(s, c, Head(s.waiting)), c, active, limit);
    }
  }

  lemma CreateSessions(s: Queue, c: Config, e: Event)
    requires e.CreateOrGet?
    ensures Step(s, c, e).sessions == s.sessions
  {
    hide CleanedAndAdmitted;
    AdmissionSessions(s, c, e.active, e.limit);
    var s1 := CleanedAndAdmitted(s, c, e.active, e.limit);
    var s2 := s1.(byGuest := s1.byGuest - {e.guest});
    AdmissionSessions(Enrolled(s2, c, e.guest, e.id, e.score), c, e.active, e.limit);
  }

  /** Main theorem, over every run: each session that stays was earned. */
  lemma {:induction false} SessionsAreEarned(s: Queue, c: Config, run: seq<Event>, sid: Sid)
    requires Timed(c) && Inv(s) && Runs(s, c, run)
    requires sid in After(s, c, run).sessions && !After(s, c, run).sessions[sid].doomed
    ensures var session := After(s, c, run).sessions[sid];
            (sid in s.sessions && s.sessions[sid] == session) || Earned(s, c, run, sid, session)
    decreases |run|
  {
    hide Inv, Step, Enabled, Entitled;
    if run != [] {
      StepKeepsInv(s, c, run[0]);
      var t := Step(s, c, run[0]);
      SessionsAreEarned(t, c, run[1..], sid);
      if sid in t.sessions && t.sessions[sid] == After(s, c, run).sessions[sid] {
        NewSurvivor(s, c, run[0], sid);
      }
    }
  }

  // ---------- Cleaning up and admitting ----------

  /** The line keeps exactly the tickets that wait, reservations those whose time has not come, and a ticket left consuming is
      admitted again exactly while it is reserved. */
  lemma CleanedExactly(s: Queue, id: Id)
    ensures var t := Cleaned(s);
            && (id in t.waiting <==> id in s.waiting && id in s.tickets && s.tickets[id].status == Waiting)
            && (id in t.waiting ==> t.waiting[id] == s.waiting[id])
            && (id in t.reservations <==> id in s.reservations && s.reservations[id] > s.now)
            && (id in t.reservations ==> t.reservations[id] == s.reservations[id])
            && (id in t.tickets <==> id in s.tickets)
            && (id in s.tickets ==>
                  t.tickets[id] == if id in t.reservations && s.tickets[id].status == Consuming then s.tickets[id].(status := Admitted) else s.tickets[id])
            && t.byGuest == s.byGuest && t.sessions == s.sessions && t.now == s.now
  {
  }

  /** The loop stops when the line is empty or a limit is reached, and not before; it never passes the limit on all sessions. */
  lemma {:induction false} AdmissionIsComplete(s: Queue, c: Config, active: nat, limit: nat)
    ensures var t := AdmitAll(s, c, active, limit);
            && (t.waiting == map[] || |t.sessions| + |t.reservations| >= c.maxGuests || (limit > 0 && active + |t.reservations| >= limit))
            && (limit > 0 && active + |s.reservations| <= limit ==> active + |t.reservations| <= limit)
            && (|s.sessions| + |s.reservations| <= c.maxGuests ==> |t.sessions| + |t.reservations| <= c.maxGuests)
    decreases |s.waiting|
  {
    if s.waiting != map[] && HasRoom(s, c, active, limit) {
      Shorter(s.waiting, Head(s.waiting));
      AdmissionIsComplete(HeadTaken(s, c, Head(s.waiting)), c, active, limit);
    }
  }

  /** Who is admitted gets the admission time, on its ticket, its reservation and its guest's index entry; who was waiting and
      has left the line is admitted; nobody else changes. */
  ghost predicate OnTerms(s: Queue, t: Queue, until: int, k: Id) {
    && (k in t.tickets <==> k in s.tickets)
    && (k in s.tickets && t.tickets[k] != s.tickets[k] ==>
          && s.tickets[k].status == Waiting && t.tickets[k] == s.tickets[k].(status := Admitted, until := until)
          && k in t.reservations && t.reservations[k] == until)
    && (k in s.waiting && k !in t.waiting && k in s.tickets && s.tickets[k].status == Waiting ==> t.tickets[k].status == Admitted)
    && (k in s.tickets && t.tickets[k] == s.tickets[k] ==>
          (k in t.reservations <==> k in s.reservations) && (k in s.reservations ==> t.reservations[k] == s.reservations[k]))
    && (k !in s.tickets ==> (k in t.reservations <==> k in s.reservations))
  }

  ghost predicate AdmittedOnTerms(s: Queue, t: Queue, until: int) { forall k :: OnTerms(s, t, until, k) }

  lemma HeadOnTerms(s: Queue, c: Config, id: Id)
    requires id in s.waiting
    ensures AdmittedOnTerms(s, HeadTaken(s, c, id), s.now + c.admissionTTL)
    ensures HeadTaken(s, c, id).now == s.now && forall k :: k in HeadTaken(s, c, id).waiting ==> k in s.waiting
  {
  }

  lemma TermsTwice(s: Queue, t: Queue, u: Queue, until: int)
    requires AdmittedOnTerms(s, t, until) && AdmittedOnTerms(t, u, until)
    requires forall k :: k in t.waiting ==> k in s.waiting
    ensures AdmittedOnTerms(s, u, until)
  {
    forall k: Id
      ensures OnTerms(s, u, until, k)
    {
      assert OnTerms(s, t, until, k) && OnTerms(t, u, until, k);
    }
  }

  lemma {:induction false} AdmissionTerms(s: Queue, c: Config, active: nat, limit: nat)
    ensures AdmittedOnTerms(s, AdmitAll(s, c, active, limit), s.now + c.admissionTTL)
    decreases |s.waiting|
  {
    hide AdmittedOnTerms, HeadTaken;
    if s.waiting != map[] && HasRoom(s, c, active, limit) {
      var id := Head(s.waiting);
      HeadOnTerms(s, c, id);
      HeadShortens(s, c, id);
      var t := HeadTaken(s, c, id);
      AdmissionTerms(t, c, active, limit);
      TermsTwice(s, t, AdmitAll(t, c, active, limit), s.now + c.admissionTTL);
    } else {
      NothingOnTerms(s, s.now + c.admissionTTL);
    }
  }

  lemma HeadShortens(s: Queue, c: Config, id: Id)
    requires id in s.waiting
    ensures |HeadTaken(s, c, id).waiting| < |s.waiting|
  {
    Shorter(s.waiting, id);
  }

  lemma NothingOnTerms(s: Queue, until: int)
    ensures AdmittedOnTerms(s, s, until)
  {
  }

  /** An admitted ticket and its guest's index entry end together. */
  lemma AdmittedIndex(s: Queue, id: Id)
    requires Inv(s) && id in s.tickets && s.tickets[id].status == Admitted
    ensures s.tickets[id].guest in s.byGuest && s.byGuest[s.tickets[id].guest] == Index(id, s.tickets[id].until)
  {
    assert TicketOk(id, s.tickets[id], s);
  }

  // ---------- Joining ----------

  /** The guest is known: its index entry stands, and not for a session that has ended. */
  predicate Known(s: Queue, g: Guest) {
    && g in s.byGuest
    && (s.byGuest[g].id in s.tickets && s.tickets[s.byGuest[g].id].status.Consumed? ==>
          s.tickets[s.byGuest[g].id].status.session in s.sessions)
  }

  /** A ticket is made exactly for a guest not known, if the rate limit allows it and fewer than a hundred wait. */
  predicate Joins(s: Queue, g: Guest, allowed: bool) { !Known(s, g) && allowed && |s.waiting| < 100 }

  /** What joining answers. */
  datatype Joining = Existing(id: Id) | Made(id: Id) | RateLimited | Full

  lemma JoinsExactly(s: Queue, c: Config, e: Event)
    requires Inv(s) && Timed(c) && e.CreateOrGet? && Enabled(s, e)
    ensures var s1 := CleanedAndAdmitted(s, c, e.active, e.limit);
            var t := Step(s, c, e);
            && t.usedIds == (if Joins(s1, e.guest, e.allowed) then s.usedIds + {e.id} else s.usedIds)
            && (Known(s1, e.guest) ==> t == s1)
            && (!Known(s1, e.guest) && !Joins(s1, e.guest, e.allowed) ==> t == s1.(byGuest := s1.byGuest - {e.guest}))
            && (Joins(s1, e.guest, e.allowed) ==> e.id in t.tickets && t.tickets[e.id].guest == e.guest)
  {
    hide CleanedAndAdmitted, Inv;
    AdmissionKeeps(s, c, e.active, e.limit);
    var s1 := CleanedAndAdmitted(s, c, e.active, e.limit);
    if Joins(s1, e.guest, e.allowed) {
      var s2 := s1.(byGuest := s1.byGuest - {e.guest});
      UnindexedKeeps(s1, e.guest);
      EnrolledKeeps(s2, c, e.guest, e.id, e.score);
      AdmissionKeeps(Enrolled(s2, c, e.guest, e.id, e.score), c, e.active, e.limit);
      NewTicketStays(s2, c, e);
    }
  }

  lemma TicketStays(s: Queue, c: Config, active: nat, limit: nat, k: Id)
    requires k in s.tickets
    ensures k in AdmitAll(s, c, active, limit).tickets && AdmitAll(s, c, active, limit).tickets[k].guest == s.tickets[k].guest
  {
    hide AdmitAll;
    AdmissionTerms(s, c, active, limit);
    assert OnTerms(s, AdmitAll(s, c, active, limit), s.now + c.admissionTTL, k);
  }

  lemma NewTicketStays(s: Queue, c: Config, e: Event)
    requires e.CreateOrGet?
    ensures var t := CleanedAndAdmitted(Enrolled(s, c, e.guest, e.id, e.score), c, e.active, e.limit);
            e.id in t.tickets && t.tickets[e.id].guest == e.guest
  {
    hide AdmitAll, Cleaned;
    var d := Enrolled(s, c, e.guest, e.id, e.score);
    CleanedExactly(d, e.id);
    TicketStays(Cleaned(d), c, e.active, e.limit, e.id);
  }

  /** A new ticket waits at its place in line for the queue time, and so does its guest's index entry. */
  lemma EnrolledExactly(s: Queue, c: Config, g: Guest, id: Id, score: int)
    ensures var t := Enrolled(s, c, g, id, score);
            && t.tickets == s.tickets[id := Ticket(g, Waiting, s.now + c.queueTTL)]
            && t.byGuest == s.byGuest[g := Index(id, s.now + c.queueTTL)] && t.waiting == s.waiting[id := score]
            && t.reservations == s.reservations && t.sessions == s.sessions
  {
  }

  // ---------- The small operations ----------

  datatype Cancelling = Done | Missing | Forbidden | NotCancellable

  /** Whose ticket, and in which state, decides. */
  function CancelAnswer(s: Queue, g: Guest, id: Id): (r: Cancelling)
    ensures r == Missing <==> id !in s.tickets
    ensures r == Forbidden <==> id in s.tickets && s.tickets[id].guest != g
    ensures r == Done <==> id in s.tickets && s.tickets[id].guest == g && s.tickets[id].status in {Waiting, Admitted}
  {
    if id !in s.tickets then Missing
    else if s.tickets[id].guest != g then Forbidden
    else if s.tickets[id].status.Waiting? || s.tickets[id].status.Admitted? then Done
    else NotCancellable
  }

  /** A cancelled ticket is out of line, has no reservation and no index entry; without a cancellation nothing changes. */
  lemma CancelExactly(s: Queue, c: Config, g: Guest, id: Id)
    requires Inv(s)
    ensures var t := Step(s, c, Cancel(g, id));
            if CancelAnswer(s, g, id) != Done then t == s
            else
              && t.tickets == s.tickets[id := s.tickets[id].(status := Cancelled)]
              && t.waiting == s.waiting - {id} && t.byGuest == s.byGuest - {g}
              && t.reservations == s.reservations - {id} && t.sessions == s.sessions
  {
    if CancelAnswer(s, g, id) == Done {
      assert TicketOk(id, s.tickets[id], s);
      Shorter(s.waiting, id);
      Shorter(s.reservations, id);
    }
  }

  /** A heartbeat extends a guest's own waiting ticket and its index entry by the queue time, and nothing else. */
  lemma HeartbeatExactly(s: Queue, c: Config, g: Guest, id: Id)
    requires Inv(s)
    ensures var t := Step(s, c, Heartbeat(g, id));
            if id in s.tickets && s.tickets[id].guest == g && s.tickets[id].status == Waiting
            then t == s.(tickets := s.tickets[id := s.tickets[id].(until := s.now + c.queueTTL)],
                         byGuest := s.byGuest[g := Index(id, s.now + c.queueTTL)])
            else t == s
  {
    if id in s.tickets {
      assert TicketOk(id, s.tickets[id], s);
    }
  }

  /** Keys vanish exactly when their time has come; members of sorted sets do not. */
  lemma ElapsedExactly(s: Queue, c: Config, now: int)
    ensures var t := Step(s, c, Elapse(now));
            && t.now == now && t.waiting == s.waiting && t.reservations == s.reservations && t.sessions == s.sessions
            && (forall id :: id in t.tickets <==> id in s.tickets && now < s.tickets[id].until)
            && (forall id :: id in t.tickets ==> t.tickets[id] == s.tickets[id])
            && (forall g :: g in t.byGuest <==> g in s.byGuest && now < s.byGuest[g].until)
            && (forall g :: g in t.byGuest ==> t.byGuest[g] == s.byGuest[g])
  {
  }

  /** The index entry of an ended session goes, and only if it still points to that session's ticket. */
  lemma DropIndexExactly(s: Queue, c: Config, g: Guest, sid: Sid)
    ensures var t := Step(s, c, DropIndex(g, sid));
            if g in s.byGuest && s.byGuest[g].id in s.tickets && s.tickets[s.byGuest[g].id].status == Consumed(sid)
            then t == s.(byGuest := s.byGuest - {g}) else t == s
  {
  }

  /** A session that ends gives its place back, and its ticket is not touched. */
  lemma SessionEndsExactly(s: Queue, c: Config, sid: Sid)
    ensures Step(s, c, SessionEnds(sid)) == s.(sessions := s.sessions - {sid})
    ensures sid !in Step(s, c, SessionEnds(sid)).sessions
  {
  }
}
