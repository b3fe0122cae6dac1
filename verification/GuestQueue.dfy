/** The guest queue in the form of the source: operations under one lock that read and change the keys and sorted sets step by
    step, with the clean-up and admission loops spelled out. */
module GuestQueues {
  import opened Basics
  import opened GuestAdmission
  import opened GuestAnswers

  class GuestQueue {
    const config: Config
    var now: int
    var tickets: map<Id, Ticket>
    var byGuest: map<Guest, Index>
    var waiting: map<Id, int>
    var reservations: map<Id, int>
    var sessions: map<Sid, Session>
    ghost var usedIds: set<Id>
    ghost var usedSids: set<Sid>
    ghost var served: set<Id>

    ghost function View(): Queue
      reads this
    {
      Queue(now, tickets, byGuest, waiting, reservations, sessions, usedIds, usedSids, served)
    }

    constructor (config: Config, now: int)
      ensures this.config == config && View() == Empty(now)
    {
      this.config, this.now := config, now;
      tickets, byGuest, waiting, reservations, sessions := map[], map[], map[], map[], map[];
      usedIds, usedSids, served := {}, {}, {};
    }

    /** The first member of the line, by score and then by name. */
    method FirstInLine() returns (head: Option<Id>)
      ensures head.None? <==> waiting == map[]
      ensures head.Some? ==> IsHead(waiting, head.value)
    {
      head := None;
      var todo := waiting.Keys;
      while todo != {}
        invariant todo <= waiting.Keys && (head.None? ==> todo == waiting.Keys)
        invariant head.Some? ==>
                    && head.value in waiting
                    && forall k :: k in waiting && k !in todo ==>
                         waiting[head.value] < waiting[k] || (waiting[head.value] == waiting[k] && head.value <= k)
        decreases |todo|
      {
        var k :| k in todo;
        todo := todo - {k};
        if head.None? || waiting[k] < waiting[head.value] || (waiting[k] == waiting[head.value] && k < head.value) {
          head := Some(k);
        }
      }
      assert head.None? ==> waiting.Keys == {};
    }

    method AdmitHead() returns (found: bool)
      modifies this`waiting, this`tickets, this`byGuest, this`reservations
      ensures found <==> old(waiting) != map[]
      ensures View() == if found then HeadTaken(old(View()), config, Head(old(waiting))) else old(View())
    {
      var head := FirstInLine();
      if head.None? {
        return false;
      }
      var id := head.value;
      HeadUnique(waiting, id, Head(waiting));
      waiting := waiting - {id};
      if id !in tickets || !tickets[id].status.Waiting? {
        return true;
      }
      var until := now + config.admissionTTL;
      var guest := tickets[id].guest;
      tickets := tickets[id := tickets[id].(status := Admitted, until := until)];
      if guest in byGuest {
        byGuest := byGuest[guest := byGuest[guest].(until := until)];
      }
      reservations := reservations[id := until];
      return true;
    }

    method PruneWaiting()
      modifies this`waiting
      ensures View() == Pruned(old(View()))
    {
      var todo := waiting.Keys;
      while todo != {}
        invariant todo <= waiting.Keys
        invariant forall k :: k in waiting ==> k in old(waiting) && waiting[k] == old(waiting)[k] && (k in todo || IsWaiting(tickets, k))
        invariant forall k :: k in old(waiting) && (k in todo || IsWaiting(tickets, k)) ==> k in waiting
        decreases |todo|
      {
        var k :| k in todo;
        todo := todo - {k};
        if k !in tickets || !tickets[k].status.Waiting? {
          waiting := waiting - {k};
        }
      }
    }

    method DropExpiredReservations()
      modifies this`reservations
      ensures View() == Unreserved(old(View()))
    {
      var todo := reservations.Keys;
      while todo != {}
        invariant todo <= reservations.Keys
        invariant forall k :: k in reservations ==>
                    k in old(reservations) && reservations[k] == old(reservations)[k] && (k in todo || reservations[k] > now)
        invariant forall k :: k in old(reservations) && (k in todo || old(reservations)[k] > now) ==> k in reservations
        decreases |todo|
      {
        var k :| k in todo;
        todo := todo - {k};
        if reservations[k] <= now {
          reservations := reservations - {k};
        }
      }
    }

    method RecoverConsuming()
      modifies this`tickets
      ensures View() == Recovered(old(View()))
    {
      var todo := reservations.Keys;
      while todo != {}
        invariant todo <= reservations.Keys && tickets.Keys == old(tickets).Keys
        invariant forall k :: k in tickets ==>
                    tickets[k] == if k in reservations && k !in todo && old(tickets)[k].status.Consuming?
                                  then old(tickets)[k].(status := Admitted) else old(tickets)[k]
        decreases |todo|
      {
        var k :| k in todo;
        todo := todo - {k};
        if k in tickets && tickets[k].status.Consuming? {
          tickets := tickets[k := tickets[k].(status := Admitted)];
        }
      }
    }

    /** The clean-up and the admit loop; the loop ends because every turn takes a member out of the line. */
    method CleanupAndAdmit(active: nat, limit: nat)
      modifies this`waiting, this`tickets, this`byGuest, this`reservations
      ensures View() == CleanedAndAdmitted(old(View()), config, active, limit)
    {
      PruneWaiting();
      DropExpiredReservations();
      RecoverConsuming();
      ghost var start := View();
      assert start == Cleaned(old(View()));
      hide Cleaned, HeadTaken;
      while |sessions| + |reservations| < config.maxGuests && (limit == 0 || active + |reservations| < limit)
        invariant AdmitAll(View(), config, active, limit) == AdmitAll(start, config, active, limit)
        invariant now == old(now) && sessions == old(sessions)
        decreases |waiting|
      {
        ghost var before := View();
        if waiting != map[] {
          Shorter(waiting, Head(waiting));
          TakenShrinks(before, config, Head(waiting));
        }
        var found := AdmitHead();
        if !found {
          break;
        }
      }
    }

    method CreateOrGet(g: Guest, id: Id, score: int, allowed: bool, active: nat, limit: nat) returns (answer: Joining)
      modifies this
      ensures View() == CreatedOrGot(old(View()), config, g, id, score, allowed, active, limit)
      ensures var s1 := CleanedAndAdmitted(old(View()), config, active, limit);
              && (answer.Existing? <==> Known(s1, g)) && (answer.Existing? ==> answer.id == s1.byGuest[g].id)
              && (answer.Made? <==> Joins(s1, g, allowed)) && (answer.Made? ==> answer.id == id)
              && (answer == RateLimited <==> !Known(s1, g) && !allowed)
    {
      hide CleanedAndAdmitted, Enrolled;
      CleanupAndAdmit(active, limit);
      if g in byGuest {
        var current := byGuest[g].id;
        if current in tickets && tickets[current].status.Consumed? && tickets[current].status.session !in sessions {
          byGuest := byGuest - {g};
        } else {
          return Existing(current);
        }
      } else {
        assert byGuest - {g} == byGuest;
      }
      if !allowed {
        return RateLimited;
      }
      if |waiting| >= MAX_WAITING {
        return Full;
      }
      Enrol(g, id, score);
      CleanupAndAdmit(active, limit);
      return Made(id);
    }

    method Enrol(g: Guest, id: Id, score: int)
      modifies this`tickets, this`byGuest, this`waiting, this`usedIds
      ensures View() == Enrolled(old(View()), config, g, id, score)
    {
      var until := now + config.queueTTL;
      tickets := tickets[id := Ticket(g, Waiting, until)];
      byGuest := byGuest[g := Index(id, until)];
      waiting := waiting[id := score];
      usedIds := usedIds + {id};
    }

    method Cancel(g: Guest, id: Id) returns (answer: Cancelling)
      modifies this
      ensures View() == CancelledBy(old(View()), g, id) && answer == CancelAnswer(old(View()), g, id)
    {
      if id !in tickets {
        return Missing;
      }
      if tickets[id].guest != g {
        return Forbidden;
      }
      if tickets[id].status.Waiting? {
        waiting := waiting - {id};
      } else if tickets[id].status.Admitted? {
        reservations := reservations - {id};
      } else {
        return NotCancellable;
      }
      tickets := tickets[id := tickets[id].(status := Cancelled)];
      if g in byGuest && byGuest[g].id == id {
        byGuest := byGuest - {g};
      }
      return Done;
    }

    /** A heartbeat, and what the guest is told about the ticket afterwards. */
    method Heartbeat(g: Guest, id: Id) returns (status: Option<Status>)
      modifies this`tickets, this`byGuest
      ensures View() == Beaten(old(View()), config, g, id)
      ensures status.Some? ==> id in tickets && tickets[id].guest == g && status == Some(tickets[id].status)
      ensures Inv(old(View())) ==> (status.Some? <==> id in old(tickets) && old(tickets)[id].guest == g)
    {
      if id !in tickets || tickets[id].guest != g {
        return None;
      }
      if tickets[id].status.Waiting? {
        if g !in byGuest || byGuest[g].id != id {
          assert Inv(View()) ==> TicketOk(id, tickets[id], View());
          return None;
        }
        tickets := tickets[id := tickets[id].(until := now + config.queueTTL)];
        byGuest := byGuest[g := Index(id, now + config.queueTTL)];
      }
      return Some(tickets[id].status);
    }

    method GuestSessionClosed(g: Guest, sid: Sid)
      modifies this`byGuest
      ensures View() == IndexDropped(old(View()), g, sid)
    {
      if g in byGuest {
        var id := byGuest[g].id;
        if id in tickets && tickets[id].status == Consumed(sid) {
          byGuest := byGuest - {g};
        }
      }
    }

    method SetTicketUntil(g: Guest, id: Id, status: Status, until: int)
      requires id in tickets
      modifies this`tickets, this`byGuest
      ensures View() == SetTicket(old(View()), g, id, status, until)
    {
      tickets := tickets[id := tickets[id].(status := status, until := until)];
      if g in byGuest {
        byGuest := byGuest[g := byGuest[g].(until := until)];
      }
    }

    /** completeAdmissionScript, of a claimed ticket. */
    method Complete(ghost before: Queue, g: Guest, id: Id, sid: Sid)
      requires id in before.tickets && View() == SetTicket(before, g, id, Consuming, now + config.admissionTTL)
      modifies this`tickets, this`byGuest, this`reservations
      ensures View() == UsedUp(before, config, g, id, sid)
    {
      reservations := reservations - {id};
      SetTicketUntil(g, id, Consumed(sid), now + config.sessionTTL);
      assert tickets == before.tickets[id := tickets[id]];
    }

    /** restoreAdmissionScript, of a claimed ticket. */
    method Restore(ghost before: Queue, g: Guest, id: Id)
      requires id in before.tickets && View() == SetTicket(before, g, id, Consuming, now + config.admissionTTL)
      modifies this`tickets, this`byGuest, this`reservations
      ensures View() == Restored(before, config, g, id)
    {
      SetTicketUntil(g, id, Admitted, now + config.admissionTTL);
      reservations := reservations[id := now + config.admissionTTL];
      assert tickets == before.tickets[id := tickets[id]];
    }

    /** Claim, create the session, complete; and put the ticket back when either of the last two fails. */
    method Consume(g: Guest, tokenOk: bool, ending: Ending) returns (session: Option<Sid>)
      modifies this
      ensures View() == ConsumedBy(old(View()), config, g, tokenOk, ending)
      ensures session == if Claims(old(View()), config, g, tokenOk) && ending.Completes? then Some(ending.sid) else None
      ensures session.Some? ==> tokenOk && exists id :: Entitled(old(View()), config, g, tokenOk, id)
      ensures (forall id :: !Entitled(old(View()), config, g, tokenOk, id)) ==> session.None? && View() == old(View())
    {
      hide SetTicket, UsedUp, Restored, WithSession;
      ghost var before := View();
      AcceptedExactly(before, config, g, tokenOk, ending);
      if g !in byGuest || |sessions| >= config.maxGuests {
        return None;
      }
      var id := byGuest[g].id;
      if id !in tickets || !tickets[id].status.Admitted? || tickets[id].guest != g || !tokenOk {
        return None;
      }
      SetTicketFrame(before, g, id, Consuming, now + config.admissionTTL);
      SetTicketUntil(g, id, Consuming, now + config.admissionTTL);
      Finish(before, g, id, ending);
      session := if ending.Completes? then Some(ending.sid) else None;
    }

    /** What follows a claim, by how it ends. */
    method Finish(ghost before: Queue, g: Guest, id: Id, ending: Ending)
      requires Claims(before, config, g, true) && id == before.byGuest[g].id && now == before.now
      requires View() == SetTicket(before, g, id, Consuming, now + config.admissionTTL)
      modifies this
      ensures View() == ConsumedBy(before, config, g, true, ending)
    {
      hide SetTicket, UsedUp, Restored, WithSession;
      if NewSid(ending).Some? {
        SessionCommutes(before, config, g, id, NewSid(ending).value, Session(g, id, !ending.Completes?));
      }
      match ending {
        case Completes(sid) =>
          AddSession(sid, Session(g, id, false));
          Complete(WithSession(before, sid, Session(g, id, false)), g, id, sid);
        case NoSession =>
          Restore(before, g, id);
        case Undone(sid) =>
          AddSession(sid, Session(g, id, true));
          Restore(WithSession(before, sid, Session(g, id, true)), g, id);
        case LateReply(sid) =>
          AddSession(sid, Session(g, id, true));
          Complete(WithSession(before, sid, Session(g, id, true)), g, id, sid);
        case Stranded(left) =>
          if left.Some? {
            AddSession(left.value, Session(g, id, true));
          }
      }
    }

    method AddSession(sid: Sid, session: Session)
      modifies this`sessions, this`usedSids, this`served
      ensures View() == WithSession(old(View()), sid, session)
    {
      sessions := sessions[sid := session];
      usedSids := usedSids + {sid};
      if !session.doomed {
        served := served + {session.ticket};
      }
    }
  }

  lemma SetTicketFrame(s: Queue, g: Guest, id: Id, status: Status, until: int)
    requires id in s.tickets
    ensures SetTicket(s, g, id, status, until).now == s.now
  {
  }

  /** It makes no difference whether the session is there before or after the ticket changes. */
  lemma SessionCommutes(s: Queue, c: Config, g: Guest, id: Id, sid: Sid, session: Session)
    requires id in s.tickets
    ensures var t := WithSession(s, sid, session);
            && id in t.tickets
            && SetTicket(t, g, id, Consuming, s.now + c.admissionTTL) == WithSession(SetTicket(s, g, id, Consuming, s.now + c.admissionTTL), sid, session)
            && UsedUp(t, c, g, id, sid) == WithSession(UsedUp(s, c, g, id, sid), sid, session)
            && Restored(t, c, g, id) == WithSession(Restored(s, c, g, id), sid, session)
  {
  }

  lemma TakenShrinks(s: Queue, c: Config, id: Id)
    requires id in s.waiting
    ensures |HeadTaken(s, c, id).waiting| < |s.waiting|
    ensures HeadTaken(s, c, id).now == s.now && HeadTaken(s, c, id).sessions == s.sessions
  {
    Shorter(s.waiting, id);
  }
}
