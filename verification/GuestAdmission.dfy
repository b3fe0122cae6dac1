/** Guest admission (internal/server/guest_queue.go).  Redis is a set of maps changed by atomic scripts under one ideal clock: a
    key with a lifetime is gone as soon as the clock reaches its end, a member of a sorted set stays until it is removed.  Every
    queue operation holds the queue's lock, so each is one step; guest sessions may end at any time. */
module GuestAdmission {
  import opened Basics

  type Id = nat
  type Guest = nat
  type Sid = nat

  datatype Status = Waiting | Admitted | Consuming | Consumed(session: Sid) | Cancelled

  datatype Ticket = Ticket(guest: Guest, status: Status, until: int)
  datatype Index = Index(id: Id, until: int)

  /** A live guest session, the ticket it came from, and whether it is only waiting to be torn down. */
  datatype Session = Session(guest: Guest, ticket: Id, doomed: bool)

  datatype Config = Config(maxGuests: nat, queueTTL: nat, admissionTTL: nat, sessionTTL: nat)

  const MAX_WAITING: nat := 100

  /** The last three only remember: names ever given, and tickets that have yielded a session that stayed. */
  datatype Queue = Queue(
    now: int, tickets: map<Id, Ticket>, byGuest: map<Guest, Index>,
    waiting: map<Id, int>, reservations: map<Id, int>, sessions: map<Sid, Session>,
    usedIds: set<Id>, usedSids: set<Sid>, served: set<Id>)

  /** Lifetimes are positive. */
  predicate Timed(c: Config) { c.queueTTL > 0 && c.admissionTTL > 0 && c.sessionTTL > 0 }

  function Empty(now: int): Queue { Queue(now, map[], map[], map[], map[], map[], {}, {}, {}) }

  predicate Active(t: Ticket) { t.status.Waiting? || t.status.Admitted? || t.status.Consuming? }

  // ---------- The scripts ----------

  /** The member a sorted set returns first: the lowest score, then the lowest name. */
  predicate IsHead(waiting: map<Id, int>, id: Id) {
    id in waiting && forall k :: k in waiting ==> waiting[id] < waiting[k] || (waiting[id] == waiting[k] && id <= k)
  }

  predicate IsWaiting(tickets: map<Id, Ticket>, id: Id) { id in tickets && tickets[id].status.Waiting? }

  function Extended(byGuest: map<Guest, Index>, g: Guest, until: int): map<Guest, Index> {
    if g in byGuest then byGuest[g := byGuest[g].(until := until)] else byGuest
  }

  /** admitHeadScript: the head leaves the line; if it still waits it gets a reservation. */
  function HeadTaken(s: Queue, c: Config, id: Id): Queue {
    var s1 := s.(waiting := s.waiting - {id});
    if !IsWaiting(s.tickets, id) then s1
    else
      var until := s.now + c.admissionTTL;
      s1.(tickets := s.tickets[id := s.tickets[id].(status := Admitted, until := until)],
          byGuest := Extended(s.byGuest, s.tickets[id].guest, until),
          reservations := s.reservations[id := until])
  }

  /** pruneWaitingScript. */
  function Pruned(s: Queue): Queue {
    s.(waiting := map id | id in s.waiting && IsWaiting(s.tickets, id) :: s.waiting[id])
  }

  /** Reservations whose time has come are dropped. */
  function Unreserved(s: Queue): Queue {
    s.(reservations := map id | id in s.reservations && s.reservations[id] > s.now :: s.reservations[id])
  }

  /** A ticket left consuming goes back to admitted while its reservation lasts. */
  function Recovered(s: Queue): Queue {
    s.(tickets := map id | id in s.tickets ::
                    if id in s.reservations && s.tickets[id].status.Consuming? then s.tickets[id].(status := Admitted) else s.tickets[id])
  }

  /** Room for one more reservation: among guests, and among all sessions if those are limited. */
  predicate HasRoom(s: Queue, c: Config, active: nat, limit: nat) {
    |s.sessions| + |s.reservations| < c.maxGuests && (limit == 0 || active + |s.reservations| < limit)
  }

  ghost function Head(waiting: map<Id, int>): (id: Id)
    requires waiting != map[]
    ensures IsHead(waiting, id)
  {
    HeadExists(waiting);
    var id :| IsHead(waiting, id);
    id
  }

  lemma {:induction false} HeadExists(waiting: map<Id, int>)
    requires waiting != map[]
    ensures exists id :: IsHead(waiting, id)
    decreases |waiting|
  {
    var k :| k in waiting;
    var rest := waiting - {k};
    if rest == map[] {
      assert waiting == map[k := waiting[k]];
      assert IsHead(waiting, k);
    } else {
      HeadExists(rest);
      var id :| IsHead(rest, id);
      var best := if waiting[k] < waiting[id] || (waiting[k] == waiting[id] && k <= id) then k else id;
      forall j | j in waiting
        ensures waiting[best] < waiting[j] || (waiting[best] == waiting[j] && best <= j)
      {
        if j != k {
          assert j in rest && rest[j] == waiting[j];
        }
      }
      assert IsHead(waiting, best);
    }
  }

  lemma HeadUnique(waiting: map<Id, int>, a: Id, b: Id)
    requires IsHead(waiting, a) && IsHead(waiting, b)
    ensures a == b
  {
  }

  /** The admit loop; every turn takes one member out of the line. */
  ghost function AdmitAll(s: Queue, c: Config, active: nat, limit: nat): Queue
    decreases |s.waiting|
  {
    if s.waiting == map[] || !HasRoom(s, c, active, limit) then s
    else
      Shorter(s.waiting, Head(s.waiting));
      AdmitAll(HeadTaken(s, c, Head(s.waiting)), c, active, limit)
  }

  lemma Shorter<V>(m: map<Id, V>, id: Id)
    ensures id in m ==> |m - {id}| == |m| - 1
    ensures id !in m ==> m - {id} == m
  {
    if id in m {
      assert m == (m - {id})[id := m[id]];
    }
  }

  function Cleaned(s: Queue): Queue { Recovered(Unreserved(Pruned(s))) }

  ghost function CleanedAndAdmitted(s: Queue, c: Config, active: nat, limit: nat): Queue {
    AdmitAll(Cleaned(s), c, active, limit)
  }

  // ---------- The operations ----------

  /** Creating a ticket under a fresh name. */
  function Enrolled(s: Queue, c: Config, g: Guest, id: Id, score: int): Queue {
    var until := s.now + c.queueTTL;
    s.(tickets := s.tickets[id := Ticket(g, Waiting, until)], byGuest := s.byGuest[g := Index(id, until)],
       waiting := s.waiting[id := score], usedIds := s.usedIds + {id})
  }

  /** The guest's index entry is stale: its ticket was consumed and the session has ended. */
  predicate Finished(s: Queue, g: Guest) {
    && g in s.byGuest && s.byGuest[g].id in s.tickets && s.tickets[s.byGuest[g].id].status.Consumed?
    && s.tickets[s.byGuest[g].id].status.session !in s.sessions
  }

  /** CreateOrGet: one ticket per guest, a bounded line, and admission before and after. */
  ghost function CreatedOrGot(s: Queue, c: Config, g: Guest, id: Id, score: int, allowed: bool, active: nat, limit: nat): Queue {
    var s1 := CleanedAndAdmitted(s, c, active, limit);
    if g in s1.byGuest && !Finished(s1, g) then s1
    else
      var s2 := s1.(byGuest := s1.byGuest - {g});
      if !allowed || |s2.waiting| >= MAX_WAITING then s2
      else CleanedAndAdmitted(Enrolled(s2, c, g, id, score), c, active, limit)
  }

  function Beaten(s: Queue, c: Config, g: Guest, id: Id): Queue {
    if IsWaiting(s.tickets, id) && s.tickets[id].guest == g && g in s.byGuest && s.byGuest[g].id == id
    then s.(tickets := s.tickets[id := s.tickets[id].(until := s.now + c.queueTTL)],
            byGuest := s.byGuest[g := Index(id, s.now + c.queueTTL)])
    else s
  }

  function CancelledBy(s: Queue, g: Guest, id: Id): Queue {
    if id !in s.tickets || s.tickets[id].guest != g || !(s.tickets[id].status.Waiting? || s.tickets[id].status.Admitted?) then s
    else s.(waiting := if s.tickets[id].status.Waiting? then s.waiting - {id} else s.waiting,
            reservations := if s.tickets[id].status.Admitted? then s.reservations - {id} else s.reservations,
            tickets := s.tickets[id := s.tickets[id].(status := Cancelled)],
            byGuest := if g in s.byGuest && s.byGuest[g].id == id then s.byGuest - {g} else s.byGuest)
  }

  /** How a consumption that passed the claim ends. */
  datatype Ending =
    | Completes(sid: Sid)
    | NoSession
    | Undone(sid: Sid)
    | LateReply(sid: Sid)
    | Stranded(left: Option<Sid>)

  /** The claim: the guest's own admitted ticket, with the right token, while guest sessions are below the limit. */
  predicate Claims(s: Queue, c: Config, g: Guest, tokenOk: bool) {
    && g in s.byGuest && |s.sessions| < c.maxGuests && tokenOk
    && s.byGuest[g].id in s.tickets && s.tickets[s.byGuest[g].id].status.Admitted? && s.tickets[s.byGuest[g].id].guest == g
  }

  function SetTicket(s: Queue, g: Guest, id: Id, status: Status, until: int): Queue
    requires id in s.tickets
  {
    s.(tickets := s.tickets[id := s.tickets[id].(status := status, until := until)], byGuest := Extended(s.byGuest, g, until))
  }

  function WithSession(s: Queue, sid: Sid, session: Session): Queue {
    s.(sessions := s.sessions[sid := session], usedSids := s.usedSids + {sid},
       served := if session.doomed then s.served else s.served + {session.ticket})
  }

  /** completeAdmissionScript: the ticket is used up and its place given back. */
  function UsedUp(s: Queue, c: Config, g: Guest, id: Id, sid: Sid): Queue
    requires id in s.tickets
  {
    SetTicket(s, g, id, Consumed(sid), s.now + c.sessionTTL).(reservations := s.reservations - {id})
  }

  /** restoreAdmissionScript: the ticket is admitted afresh, with its reservation renewed. */
  function Restored(s: Queue, c: Config, g: Guest, id: Id): Queue
    requires id in s.tickets
  {
    SetTicket(s, g, id, Admitted, s.now + c.admissionTTL).(reservations := s.reservations[id := s.now + c.admissionTTL])
  }

  /** Consume, by how it ends: with a session; without one; with one that the script then refused, or whose confirmation was
      lost, and that will be torn down; or with a ticket that could not even be put back. */
  function ConsumedBy(s: Queue, c: Config, g: Guest, tokenOk: bool, ending: Ending): Queue {
    if !Claims(s, c, g, tokenOk) then s
    else
      var id := s.byGuest[g].id;
      match ending
      case Completes(sid) => WithSession(UsedUp(s, c, g, id, sid), sid, Session(g, id, false))
      case NoSession => Restored(s, c, g, id)
      case Undone(sid) => WithSession(Restored(s, c, g, id), sid, Session(g, id, true))
      case LateReply(sid) => WithSession(UsedUp(s, c, g, id, sid), sid, Session(g, id, true))
      case Stranded(left) =>
        var s1 := SetTicket(s, g, id, Consuming, s.now + c.admissionTTL);
        if left.Some? then WithSession(s1, left.value, Session(g, id, true)) else s1
  }

  /** GuestSessionClosed. */
  function IndexDropped(s: Queue, g: Guest, sid: Sid): Queue {
    if g in s.byGuest && s.byGuest[g].id in s.tickets && s.tickets[s.byGuest[g].id].status == Consumed(sid)
    then s.(byGuest := s.byGuest - {g}) else s
  }

  /** Time passes and keys expire. */
  function Elapsed(s: Queue, now: int): Queue {
    s.(now := now,
       tickets := map id | id in s.tickets && s.tickets[id].until > now :: s.tickets[id],
       byGuest := map g | g in s.byGuest && s.byGuest[g].until > now :: s.byGuest[g])
  }

  datatype Event =
    | Elapse(now: int)
    | Sweep(active: nat, limit: nat)
    | CreateOrGet(guest: Guest, id: Id, score: int, allowed: bool, active: nat, limit: nat)
    | Heartbeat(guest: Guest, id: Id)
    | Cancel(guest: Guest, id: Id)
    | Consume(guest: Guest, tokenOk: bool, ending: Ending)
    | SessionEnds(sid: Sid)
    | DropIndex(guest: Guest, sid: Sid)

  function NewSid(e: Ending): Option<Sid> {
    match e
    case Completes(sid) => Some(sid)
    case NoSession => None
    case Undone(sid) => Some(sid)
    case LateReply(sid) => Some(sid)
    case Stranded(left) => left
  }

  /** Names are new and the clock does not go back. */
  predicate Enabled(s: Queue, e: Event) {
    match e
    case Elapse(now) => now >= s.now
    case CreateOrGet(_, id, _, _, _, _) => id !in s.usedIds
    case Consume(_, _, ending) => NewSid(ending).Some? ==> NewSid(ending).value !in s.usedSids
    case _ => true
  }

  ghost function Step(s: Queue, c: Config, e: Event): Queue {
    match e
    case Elapse(now) => Elapsed(s, now)
    case Sweep(active, limit) => CleanedAndAdmitted(s, c, active, limit)
    case CreateOrGet(g, id, score, allowed, active, limit) => CreatedOrGot(s, c, g, id, score, allowed, active, limit)
    case Heartbeat(g, id) => Beaten(s, c, g, id)
    case Cancel(g, id) => CancelledBy(s, g, id)
    case Consume(g, tokenOk, ending) => ConsumedBy(s, c, g, tokenOk, ending)
    case SessionEnds(sid) => s.(sessions := s.sessions - {sid})
    case DropIndex(g, sid) => IndexDropped(s, g, sid)
  }

  // ---------- Invariant ----------

  function Survivors(sessions: map<Sid, Session>): set<Sid> { set s | s in sessions && !sessions[s].doomed }

  /** Sessions that stay, and places held for guests on their way in. */
  function Taken(s: Queue): nat { |Survivors(s.sessions)| + |s.reservations| }

  /** What one ticket promises. */
  ghost predicate TicketOk(id: Id, t: Ticket, s: Queue) {
    && id in s.usedIds && t.until > s.now
    && (Active(t) ==> t.guest in s.byGuest && s.byGuest[t.guest] == Index(id, t.until) && id !in s.served)
    && (t.status.Waiting? ==> id in s.waiting && id !in s.reservations)
    && (t.status.Admitted? || t.status.Consuming? ==> id !in s.waiting)
  }

  /** A surviving session's ticket is consumed or gone, its place is no longer reserved, and nobody else came from it. */
  ghost predicate SessionOk(sid: Sid, session: Session, s: Queue) {
    && sid in s.usedSids && session.ticket in s.usedIds
    && (!session.doomed ==>
          && session.ticket !in s.reservations && session.ticket !in s.waiting && session.ticket in s.served)
  }

  /** Everything that looks at tickets and sessions one by one. */
  ghost predicate Shape(s: Queue) {
    && (forall id :: id in s.tickets ==> TicketOk(id, s.tickets[id], s))
    && (forall sid :: sid in s.sessions ==> SessionOk(sid, s.sessions[sid], s))
    && (forall id :: id in s.waiting ==> id in s.usedIds)
    && (forall id :: id in s.reservations ==> id in s.usedIds)
    && s.served <= s.usedIds
  }

  /** No two surviving sessions came from one ticket. */
  ghost predicate OneEach(sessions: map<Sid, Session>) {
    forall a, b :: a in sessions && b in sessions && a != b && !sessions[a].doomed && !sessions[b].doomed ==>
      sessions[a].ticket != sessions[b].ticket
  }

  ghost predicate Inv(s: Queue) { Shape(s) && OneEach(s.sessions) }

  // ---------- Preservation ----------

  /** One guest has one index entry, so changing a ticket touches no other active one. */
  lemma OneActiveTicket(s: Queue, a: Id, b: Id)
    requires Shape(s) && a in s.tickets && b in s.tickets && Active(s.tickets[a]) && Active(s.tickets[b])
    requires s.tickets[a].guest == s.tickets[b].guest
    ensures a == b
  {
    assert TicketOk(a, s.tickets[a], s) && TicketOk(b, s.tickets[b], s);
  }

  lemma CleanedShape(s: Queue)
    requires Shape(s)
    ensures Shape(Cleaned(s))
    ensures forall id :: IsWaiting(s.tickets, id) ==> IsWaiting(Cleaned(s).tickets, id)
  {
    var t := Cleaned(s);
    forall id | id in t.tickets
      ensures TicketOk(id, t.tickets[id], t)
    {
      assert TicketOk(id, s.tickets[id], s);
    }
    forall sid | sid in t.sessions
      ensures SessionOk(sid, t.sessions[sid], t)
    {
      assert SessionOk(sid, s.sessions[sid], s);
    }
  }

  lemma HeadShape(s: Queue, c: Config, id: Id)
    requires Shape(s) && Timed(c) && IsHead(s.waiting, id)
    ensures Shape(HeadTaken(s, c, id))
  {
    var t := HeadTaken(s, c, id);
    if IsWaiting(s.tickets, id) {
      assert TicketOk(id, s.tickets[id], s);
      forall k | k in t.tickets
        ensures TicketOk(k, t.tickets[k], t)
      {
        assert TicketOk(k, s.tickets[k], s);
        if k != id && Active(s.tickets[k]) && s.tickets[k].guest == s.tickets[id].guest {
          OneActiveTicket(s, k, id);
        }
      }
    } else {
      forall k | k in t.tickets
        ensures TicketOk(k, t.tickets[k], t)
      {
        assert TicketOk(k, s.tickets[k], s);
      }
    }
    forall sid | sid in t.sessions
      ensures SessionOk(sid, t.sessions[sid], t)
    {
      assert SessionOk(sid, s.sessions[sid], s);
    }
  }

  lemma {:induction false} Fewer(a: set<nat>, b: set<nat>)
    requires a <= b
    ensures |a| <= |b|
    decreases |a|
  {
    if a != {} {
      var x :| x in a;
      Fewer(a - {x}, b - {x});
    }
  }

  lemma {:induction false} AdmitAllKeeps(s: Queue, c: Config, active: nat, limit: nat)
    requires Shape(s) && Timed(c)
    ensures var t := AdmitAll(s, c, active, limit);
            Shape(t) && t.sessions == s.sessions && t.usedIds == s.usedIds && t.usedSids == s.usedSids
    decreases |s.waiting|
  {
    hide Shape;
    if s.waiting != map[] && HasRoom(s, c, active, limit) {
      var id := Head(s.waiting);
      HeadShape(s, c, id);
      Shorter(s.waiting, id);
      AdmitAllKeeps(HeadTaken(s, c, id), c, active, limit);
    }
  }

  lemma AdmissionKeeps(s: Queue, c: Config, active: nat, limit: nat)
    requires Inv(s) && Timed(c)
    ensures var t := CleanedAndAdmitted(s, c, active, limit);
            Inv(t) && t.sessions == s.sessions && t.usedIds == s.usedIds && t.usedSids == s.usedSids
  {
    hide Shape, OneEach;
    CleanedShape(s);
    AdmitAllKeeps(Cleaned(s), c, active, limit);
  }

  lemma EnrolledKeeps(s: Queue, c: Config, g: Guest, id: Id, score: int)
    requires Inv(s) && Timed(c) && g !in s.byGuest && id !in s.usedIds
    ensures Inv(Enrolled(s, c, g, id, score))
  {
    var t := Enrolled(s, c, g, id, score);
    forall k | k in t.tickets
      ensures TicketOk(k, t.tickets[k], t)
    {
      if k != id {
        assert TicketOk(k, s.tickets[k], s);
      }
    }
    forall sid | sid in t.sessions
      ensures SessionOk(sid, t.sessions[sid], t)
    {
      assert SessionOk(sid, s.sessions[sid], s);
    }
  }

  /** An index entry that no active ticket relies on can go. */
  lemma UnindexedKeeps(s: Queue, g: Guest)
    requires Inv(s)
    requires g in s.byGuest && s.byGuest[g].id in s.tickets ==> !Active(s.tickets[s.byGuest[g].id])
    ensures Inv(s.(byGuest := s.byGuest - {g}))
  {
    var t := s.(byGuest := s.byGuest - {g});
    forall k | k in t.tickets
      ensures TicketOk(k, t.tickets[k], t)
    {
      assert TicketOk(k, s.tickets[k], s);
    }
    forall sid | sid in t.sessions
      ensures SessionOk(sid, t.sessions[sid], t)
    {
      assert SessionOk(sid, s.sessions[sid], s);
    }
  }

  lemma CreateKeeps(s: Queue, c: Config, g: Guest, id: Id, score: int, allowed: bool, active: nat, limit: nat)
    requires Inv(s) && Timed(c) && id !in s.usedIds
    ensures Inv(CreatedOrGot(s, c, g, id, score, allowed, active, limit))
  {
    hide Inv, CleanedAndAdmitted, Enrolled;
    AdmissionKeeps(s, c, active, limit);
    var s1 := CleanedAndAdmitted(s, c, active, limit);
    if !(g in s1.byGuest && !Finished(s1, g)) {
      UnindexedKeeps(s1, g);
      var s2 := s1.(byGuest := s1.byGuest - {g});
      if allowed && |s2.waiting| < MAX_WAITING {
        EnrolledKeeps(s2, c, g, id, score);
        AdmissionKeeps(Enrolled(s2, c, g, id, score), c, active, limit);
      }
    }
  }

  /** A ticket that changes to something its own promises allow, with its reservation, place in line and index entry. */
  lemma TicketChanged(s: Queue, t: Queue, id: Id)
    requires Shape(s) && id in s.tickets && Active(s.tickets[id])
    requires t.sessions == s.sessions && t.usedIds == s.usedIds && t.usedSids == s.usedSids && t.served == s.served && t.now == s.now
    requires id in t.tickets && t.tickets == s.tickets[id := t.tickets[id]] && t.tickets[id].guest == s.tickets[id].guest
    requires TicketOk(id, t.tickets[id], t)
    requires forall g :: g in s.byGuest && g != s.tickets[id].guest ==> g in t.byGuest && t.byGuest[g] == s.byGuest[g]
    requires forall k :: k != id ==> (k in t.waiting <==> k in s.waiting) && (k in t.reservations <==> k in s.reservations)
    ensures Shape(t)
  {
    forall k | k in t.tickets
      ensures TicketOk(k, t.tickets[k], t)
    {
      assert TicketOk(k, s.tickets[k], s);
      if k != id && Active(s.tickets[k]) && s.tickets[k].guest == s.tickets[id].guest {
        OneActiveTicket(s, k, id);
      }
    }
    NoSurvivorYet(s, id);
    forall sid | sid in t.sessions
      ensures SessionOk(sid, t.sessions[sid], t)
    {
      assert SessionOk(sid, s.sessions[sid], s);
    }
  }

  lemma HeartbeatKeeps(s: Queue, c: Config, g: Guest, id: Id)
    requires Inv(s) && Timed(c)
    ensures Inv(Beaten(s, c, g, id))
  {
    var t := Beaten(s, c, g, id);
    if t != s {
      assert TicketOk(id, s.tickets[id], s);
      TicketChanged(s, t, id);
    }
  }

  lemma CancelKeeps(s: Queue, g: Guest, id: Id)
    requires Inv(s)
    ensures Inv(CancelledBy(s, g, id))
  {
    hide SessionOk, OneEach;
    var t := CancelledBy(s, g, id);
    if id in s.tickets && s.tickets[id].guest == g && (s.tickets[id].status.Waiting? || s.tickets[id].status.Admitted?) {
      assert TicketOk(id, s.tickets[id], s);
      assert t.tickets == s.tickets[id := s.tickets[id].(status := Cancelled)];
      assert TicketOk(id, t.tickets[id], t);
      TicketChanged(s, t, id);
    }
  }

  lemma ElapseKeeps(s: Queue, now: int)
    requires Inv(s) && now >= s.now
    ensures Inv(Elapsed(s, now))
  {
    var t := Elapsed(s, now);
    forall k | k in t.tickets
      ensures TicketOk(k, t.tickets[k], t)
    {
      assert TicketOk(k, s.tickets[k], s);
    }
    forall sid | sid in t.sessions
      ensures SessionOk(sid, t.sessions[sid], t)
    {
      assert SessionOk(sid, s.sessions[sid], s);
    }
  }

  lemma SessionEndKeeps(s: Queue, sid: Sid)
    requires Inv(s)
    ensures Inv(s.(sessions := s.sessions - {sid}))
  {
    var t := s.(sessions := s.sessions - {sid});
    forall k | k in t.tickets
      ensures TicketOk(k, t.tickets[k], t)
    {
      assert TicketOk(k, s.tickets[k], s);
    }
    forall x | x in t.sessions
      ensures SessionOk(x, t.sessions[x], t)
    {
      assert SessionOk(x, s.sessions[x], s);
    }
  }

  lemma DropIndexKeeps(s: Queue, g: Guest, sid: Sid)
    requires Inv(s)
    ensures Inv(IndexDropped(s, g, sid))
  {
    hide Inv;
    if IndexDropped(s, g, sid) != s {
      UnindexedKeeps(s, g);
    }
  }

  /** A new session, to be torn down or from an inactive ticket whose place is free. */
  lemma SessionAdded(s: Queue, sid: Sid, session: Session)
    requires Inv(s) && sid !in s.sessions && session.ticket in s.usedIds
    requires !session.doomed ==>
               && session.ticket !in s.reservations && session.ticket !in s.waiting
               && (session.ticket in s.tickets ==> !Active(s.tickets[session.ticket]))
               && forall x :: x in s.sessions && !s.sessions[x].doomed ==> s.sessions[x].ticket != session.ticket
    ensures Inv(WithSession(s, sid, session))
  {
    var t := WithSession(s, sid, session);
    assert OneEach(t.sessions);
    hide OneEach;
    forall k | k in t.tickets
      ensures TicketOk(k, t.tickets[k], t)
    {
      assert TicketOk(k, s.tickets[k], s);
    }
    forall x | x in t.sessions
      ensures SessionOk(x, t.sessions[x], t)
    {
      if x != sid {
        assert SessionOk(x, s.sessions[x], s);
      }
    }
  }

  /** The guest's own admitted ticket changes status, its reservation kept, dropped or renewed. */
  lemma ClaimedChanges(s: Queue, g: Guest, id: Id, status: Status, until: int, reservations: map<Id, int>)
    requires Inv(s) && id in s.tickets && s.tickets[id].status.Admitted? && s.tickets[id].guest == g && until > s.now
    requires !status.Waiting? && reservations - {id} == s.reservations - {id}
    ensures var t := SetTicket(s, g, id, status, until).(reservations := reservations);
            && Inv(t) && id in t.usedIds && id !in t.waiting
            && forall x :: x in t.sessions && !t.sessions[x].doomed ==> t.sessions[x].ticket != id
  {
    hide OneEach;
    var t := SetTicket(s, g, id, status, until).(reservations := reservations);
    assert TicketOk(id, s.tickets[id], s);
    NoSurvivorYet(s, id);
    assert TicketOk(id, t.tickets[id], t);
    forall k | k != id
      ensures k in t.reservations <==> k in s.reservations
    {
      assert k in reservations - {id} <==> k in s.reservations - {id};
    }
    TicketChanged(s, t, id);
  }

  lemma UsedUpKeeps(s: Queue, c: Config, g: Guest, id: Id, sid: Sid, doomed: bool)
    requires Inv(s) && Timed(c) && id in s.tickets && s.tickets[id].status.Admitted? && s.tickets[id].guest == g && sid !in s.sessions
    ensures Inv(WithSession(UsedUp(s, c, g, id, sid), sid, Session(g, id, doomed)))
  {
    hide Inv, WithSession;
    ClaimedChanges(s, g, id, Consumed(sid), s.now + c.sessionTTL, s.reservations - {id});
    SessionAdded(UsedUp(s, c, g, id, sid), sid, Session(g, id, doomed));
  }

  lemma StrandedKeeps(s: Queue, c: Config, g: Guest, id: Id, left: Option<Sid>)
    requires Inv(s) && Timed(c) && id in s.tickets && s.tickets[id].status.Admitted? && s.tickets[id].guest == g
    requires left.Some? ==> left.value !in s.sessions
    ensures var s1 := SetTicket(s, g, id, Consuming, s.now + c.admissionTTL);
            Inv(if left.Some? then WithSession(s1, left.value, Session(g, id, true)) else s1)
  {
    hide Inv, WithSession;
    var s1 := SetTicket(s, g, id, Consuming, s.now + c.admissionTTL);
    ClaimedChanges(s, g, id, Consuming, s.now + c.admissionTTL, s.reservations);
    assert s1 == s1.(reservations := s.reservations);
    if left.Some? {
      SessionAdded(s1, left.value, Session(g, id, true));
    }
  }

  lemma ConsumeKeeps(s: Queue, c: Config, g: Guest, tokenOk: bool, ending: Ending)
    requires Inv(s) && Timed(c) && Enabled(s, Consume(g, tokenOk, ending))
    ensures Inv(ConsumedBy(s, c, g, tokenOk, ending))
  {
    hide Inv, UsedUp, SetTicket, Restored, WithSession;
    if Claims(s, c, g, tokenOk) {
      var id := s.byGuest[g].id;
      SidsUsed(s);
      match ending
      case Completes(sid) => UsedUpKeeps(s, c, g, id, sid, false);
      case LateReply(sid) => UsedUpKeeps(s, c, g, id, sid, true);
      case NoSession => RestoredKeeps(s, c, g, id);
      case Undone(sid) =>
        RestoredKeeps(s, c, g, id);
        SessionAdded(Restored(s, c, g, id), sid, Session(g, id, true));
      case Stranded(left) => StrandedKeeps(s, c, g, id, left);
    }
  }

  lemma RestoredKeeps(s: Queue, c: Config, g: Guest, id: Id)
    requires Inv(s) && Timed(c) && id in s.tickets && s.tickets[id].status.Admitted? && s.tickets[id].guest == g
    ensures Inv(Restored(s, c, g, id)) && Restored(s, c, g, id).sessions == s.sessions && id in Restored(s, c, g, id).usedIds
  {
    hide Inv;
    var until := s.now + c.admissionTTL;
    assert s.reservations[id := until] - {id} == s.reservations - {id};
    ClaimedChanges(s, g, id, Admitted, until, s.reservations[id := until]);
  }

  lemma SidsUsed(s: Queue)
    requires Inv(s)
    ensures forall sid :: sid in s.sessions ==> sid in s.usedSids
  {
    forall sid | sid in s.sessions
      ensures sid in s.usedSids
    {
      assert SessionOk(sid, s.sessions[sid], s);
    }
  }

  /** An active ticket has no surviving session. */
  lemma NoSurvivorYet(s: Queue, id: Id)
    requires Shape(s) && id in s.tickets && Active(s.tickets[id])
    ensures forall x :: x in s.sessions && !s.sessions[x].doomed ==> s.sessions[x].ticket != id
  {
    forall x | x in s.sessions && !s.sessions[x].doomed
      ensures s.sessions[x].ticket != id
    {
      assert SessionOk(x, s.sessions[x], s);
    }
  }

  lemma StepKeepsInv(s: Queue, c: Config, e: Event)
    requires Inv(s) && Timed(c) && Enabled(s, e)
    ensures Inv(Step(s, c, e))
  {
    hide Inv;
    match e
    case Elapse(now) => ElapseKeeps(s, now);
    case Sweep(active, limit) => AdmissionKeeps(s, c, active, limit);
    case CreateOrGet(g, id, score, allowed, active, limit) => CreateKeeps(s, c, g, id, score, allowed, active, limit);
    case Heartbeat(g, id) => HeartbeatKeeps(s, c, g, id);
    case Cancel(g, id) => CancelKeeps(s, g, id);
    case Consume(g, tokenOk, ending) => ConsumeKeeps(s, c, g, tokenOk, ending);
    case SessionEnds(sid) => SessionEndKeeps(s, sid);
    case DropIndex(g, sid) => DropIndexKeeps(s, g, sid);
  }

  // ---------- What it means ----------

  ghost predicate Runs(s: Queue, c: Config, run: seq<Event>)
    decreases |run|
  {
    run == [] || (Enabled(s, run[0]) && Runs(Step(s, c, run[0]), c, run[1..]))
  }

  ghost function After(s: Queue, c: Config, run: seq<Event>): Queue
    requires Runs(s, c, run)
    decreases |run|
  {
    if run == [] then s else After(Step(s, c, run[0]), c, run[1..])
  }

  /** Whatever becomes of a claim, every ticket and session keeps its promises, and no two surviving sessions share a ticket. */
  lemma {:induction false} RunKeepsInv(s: Queue, c: Config, run: seq<Event>)
    requires Inv(s) && Timed(c) && Runs(s, c, run)
    ensures Inv(After(s, c, run))
    decreases |run|
  {
    hide Inv, Step, Enabled;
    if run != [] {
      StepKeepsInv(s, c, run[0]);
      RunKeepsInv(Step(s, c, run[0]), c, run[1..]);
    }
  }

  /** A ticket that has yielded a session that stayed is never accepted again, even after that session has ended. */
  lemma ServedOnce(s: Queue, c: Config, g: Guest, tokenOk: bool)
    requires Inv(s) && Claims(s, c, g, tokenOk)
    ensures s.byGuest[g].id !in s.served
  {
    assert TicketOk(s.byGuest[g].id, s.tickets[s.byGuest[g].id], s);
  }

  // ---------- The limit ----------

  lemma {:induction false} AdmitAllLimit(s: Queue, c: Config, active: nat, limit: nat)
    requires Taken(s) <= c.maxGuests
    ensures Taken(AdmitAll(s, c, active, limit)) <= c.maxGuests && AdmitAll(s, c, active, limit).sessions == s.sessions
    decreases |s.waiting|
  {
    if s.waiting != map[] && HasRoom(s, c, active, limit) {
      var id := Head(s.waiting);
      Fewer(Survivors(s.sessions), s.sessions.Keys);
      Shorter(s.waiting, id);
      AdmitAllLimit(HeadTaken(s, c, id), c, active, limit);
    }
  }

  lemma AdmissionLimit(s: Queue, c: Config, active: nat, limit: nat)
    requires Taken(s) <= c.maxGuests
    ensures Taken(CleanedAndAdmitted(s, c, active, limit)) <= c.maxGuests
  {
    Fewer(Cleaned(s).reservations.Keys, s.reservations.Keys);
    AdmitAllLimit(Cleaned(s), c, active, limit);
  }

  lemma CreateLimit(s: Queue, c: Config, g: Guest, id: Id, score: int, allowed: bool, active: nat, limit: nat)
    requires Taken(s) <= c.maxGuests
    ensures Taken(CreatedOrGot(s, c, g, id, score, allowed, active, limit)) <= c.maxGuests
  {
    hide CleanedAndAdmitted;
    AdmissionLimit(s, c, active, limit);
    var s1 := CleanedAndAdmitted(s, c, active, limit);
    var s2 := s1.(byGuest := s1.byGuest - {g});
    assert Taken(Enrolled(s2, c, g, id, score)) == Taken(s1);
    AdmissionLimit(Enrolled(s2, c, g, id, score), c, active, limit);
  }

  lemma SurvivorAdded(sessions: map<Sid, Session>, sid: Sid, session: Session)
    requires sid !in sessions
    ensures |Survivors(sessions[sid := session])| == |Survivors(sessions)| + if session.doomed then 0 else 1
  {
    if session.doomed {
      assert Survivors(sessions[sid := session]) == Survivors(sessions);
    } else {
      assert Survivors(sessions[sid := session]) == Survivors(sessions) + {sid};
    }
  }

  /** How many more places an accepted consumption takes, by its ending and by whether one was still held for it. */
  function Takes(ending: Ending, held: bool): int {
    match ending
    case Completes(_) => if held then 0 else 1
    case NoSession => if held then 0 else 1
    case Undone(_) => if held then 0 else 1
    case LateReply(_) => if held then -1 else 0
    case Stranded(_) => 0
  }

  lemma ConsumeTakes(s: Queue, c: Config, g: Guest, tokenOk: bool, ending: Ending)
    requires Claims(s, c, g, tokenOk) && (NewSid(ending).Some? ==> NewSid(ending).value !in s.sessions)
    ensures Taken(ConsumedBy(s, c, g, tokenOk, ending)) == Taken(s) + Takes(ending, s.byGuest[g].id in s.reservations)
  {
    var id := s.byGuest[g].id;
    Shorter(s.reservations, id);
    if id in s.reservations {
      assert s.reservations[id := s.now + c.admissionTTL].Keys == s.reservations.Keys;
    }
    if NewSid(ending).Some? {
      SurvivorAdded(s.sessions, NewSid(ending).value, Session(g, id, !ending.Completes?));
    }
    hide Survivors;
  }

  /** An accepted consumption for which no place is held while every place is taken, and which takes one. */
  predicate Overruns(s: Queue, c: Config, e: Event) {
    && e.Consume? && Claims(s, c, e.guest, e.tokenOk) && (e.ending.Completes? || e.ending.NoSession? || e.ending.Undone?)
    && s.byGuest[e.guest].id !in s.reservations && Taken(s) == c.maxGuests
  }

  /** Over all operations: a step breaks the limit exactly when it is such a consumption. */
  lemma OverrunsExactly(s: Queue, c: Config, e: Event)
    requires Inv(s) && Enabled(s, e) && Taken(s) <= c.maxGuests
    ensures Taken(Step(s, c, e)) > c.maxGuests <==> Overruns(s, c, e)
  {
    hide CleanedAndAdmitted, CreatedOrGot, ConsumedBy, Inv;
    match e
    case Elapse(now) =>
    case Sweep(active, limit) => AdmissionLimit(s, c, active, limit);
    case CreateOrGet(g, id, score, allowed, active, limit) => CreateLimit(s, c, g, id, score, allowed, active, limit);
    case Heartbeat(g, id) =>
    case Cancel(g, id) => Fewer(CancelledBy(s, g, id).reservations.Keys, s.reservations.Keys);
    case Consume(g, tokenOk, ending) => ConsumeLimit(s, c, g, tokenOk, ending);
    case SessionEnds(sid) => Fewer(Survivors(s.sessions - {sid}), Survivors(s.sessions));
    case DropIndex(g, sid) =>
  }

  lemma ConsumeLimit(s: Queue, c: Config, g: Guest, tokenOk: bool, ending: Ending)
    requires Inv(s) && Enabled(s, Consume(g, tokenOk, ending)) && Taken(s) <= c.maxGuests
    ensures Taken(ConsumedBy(s, c, g, tokenOk, ending)) > c.maxGuests <==> Overruns(s, c, Consume(g, tokenOk, ending))
  {
    hide Inv, Taken;
    SidsUsed(s);
    if Claims(s, c, g, tokenOk) {
      ConsumeTakes(s, c, g, tokenOk, ending);
    }
  }

  /** The limit holds in every state of a run. */
  ghost predicate Within(s: Queue, c: Config, run: seq<Event>)
    decreases |run|
  {
    Taken(s) <= c.maxGuests && (run == [] || Within(Step(s, c, run[0]), c, run[1..]))
  }

  /** Every accepted consumption of a run still has its reservation, finds a free place or takes none. */
  ghost predicate NeverOverruns(s: Queue, c: Config, run: seq<Event>)
    decreases |run|
  {
    run == [] || (!Overruns(s, c, run[0]) && NeverOverruns(Step(s, c, run[0]), c, run[1..]))
  }

  lemma {:induction false} WithinExactly(s: Queue, c: Config, run: seq<Event>)
    requires Inv(s) && Timed(c) && Runs(s, c, run) && Taken(s) <= c.maxGuests
    ensures Within(s, c, run) <==> NeverOverruns(s, c, run)
    decreases |run|
  {
    hide Inv, Step, Enabled, Overruns, Taken;
    if run != [] {
      OverrunsExactly(s, c, run[0]);
      if !Overruns(s, c, run[0]) {
        StepKeepsInv(s, c, run[0]);
        WithinExactly(Step(s, c, run[0]), c, run[1..]);
      }
    }
  }

  lemma EmptyIsFine(c: Config, now: int)
    ensures Inv(Empty(now)) && Taken(Empty(now)) == 0 && Backed(Empty(now))
  {
    assert Survivors(map[]) == {};
  }

  /** Main theorem: along every run, stranded claims included, tickets and sessions keep their promises; and surviving guest
      sessions and reservations together stay within the limit throughout if and only if no consumption overruns it. */
  lemma LimitHolds(c: Config, now: int, run: seq<Event>)
    requires Timed(c) && Runs(Empty(now), c, run)
    ensures Inv(After(Empty(now), c, run))
    ensures Within(Empty(now), c, run) <==> NeverOverruns(Empty(now), c, run)
  {
    EmptyIsFine(c, now);
    RunKeepsInv(Empty(now), c, run);
    WithinExactly(Empty(now), c, run);
  }

  // ---------- Runs without stranded claims ----------

  predicate BackedTicket(id: Id, t: Ticket, s: Queue) {
    && !t.status.Consuming?
    && (t.status.Admitted? ==> id in s.reservations && t.until <= s.reservations[id])
  }

  /** No claim is between its scripts, and no admitted ticket outlives its reservation. */
  ghost predicate Backed(s: Queue) {
    forall id :: id in s.tickets ==> BackedTicket(id, s.tickets[id], s)
  }

  lemma {:induction false} AdmitAllBacked(s: Queue, c: Config, active: nat, limit: nat)
    requires Backed(s)
    ensures Backed(AdmitAll(s, c, active, limit))
    decreases |s.waiting|
  {
    if s.waiting != map[] && HasRoom(s, c, active, limit) {
      var id := Head(s.waiting);
      HeadBacked(s, c, id);
      Shorter(s.waiting, id);
      AdmitAllBacked(HeadTaken(s, c, id), c, active, limit);
    }
  }

  lemma HeadBacked(s: Queue, c: Config, id: Id)
    requires Backed(s)
    ensures Backed(HeadTaken(s, c, id))
  {
    var t := HeadTaken(s, c, id);
    forall k | k in t.tickets
      ensures BackedTicket(k, t.tickets[k], t)
    {
      assert BackedTicket(k, s.tickets[k], s);
    }
  }

  lemma AdmissionBacked(s: Queue, c: Config, active: nat, limit: nat)
    requires Shape(s) && Backed(s)
    ensures Backed(CleanedAndAdmitted(s, c, active, limit))
  {
    var t := Cleaned(s);
    forall k | k in t.tickets
      ensures BackedTicket(k, t.tickets[k], t)
    {
      assert BackedTicket(k, s.tickets[k], s) && TicketOk(k, s.tickets[k], s);
    }
    AdmitAllBacked(t, c, active, limit);
  }

  lemma CreateBacked(s: Queue, c: Config, g: Guest, id: Id, score: int, allowed: bool, active: nat, limit: nat)
    requires Inv(s) && Timed(c) && id !in s.usedIds && Backed(s)
    ensures Backed(CreatedOrGot(s, c, g, id, score, allowed, active, limit))
  {
    hide CleanedAndAdmitted, TicketOk, SessionOk, OneEach;
    AdmissionKeeps(s, c, active, limit);
    AdmissionBacked(s, c, active, limit);
    var s1 := CleanedAndAdmitted(s, c, active, limit);
    if !(g in s1.byGuest && !Finished(s1, g)) {
      UnindexedKeeps(s1, g);
      var s2 := s1.(byGuest := s1.byGuest - {g});
      if allowed && |s2.waiting| < MAX_WAITING {
        EnrolledKeeps(s2, c, g, id, score);
        assert Backed(Enrolled(s2, c, g, id, score)) by {
          assert forall k :: k in s1.tickets ==> BackedTicket(k, s1.tickets[k], s1);
        }
        AdmissionBacked(Enrolled(s2, c, g, id, score), c, active, limit);
      }
    }
  }

  predicate Strands(e: Event) { e.Consume? && e.ending.Stranded? }

  lemma ConsumeBacked(s: Queue, c: Config, g: Guest, tokenOk: bool, ending: Ending)
    requires Backed(s) && !ending.Stranded?
    ensures Backed(ConsumedBy(s, c, g, tokenOk, ending))
  {
    var t := ConsumedBy(s, c, g, tokenOk, ending);
    forall k | k in t.tickets
      ensures BackedTicket(k, t.tickets[k], t)
    {
      assert k in s.tickets && BackedTicket(k, s.tickets[k], s);
    }
  }

  lemma StepKeepsBacked(s: Queue, c: Config, e: Event)
    requires Inv(s) && Timed(c) && Enabled(s, e) && Backed(s) && !Strands(e)
    ensures Backed(Step(s, c, e))
  {
    var t := Step(s, c, e);
    match e
    case Sweep(active, limit) => AdmissionBacked(s, c, active, limit);
    case CreateOrGet(g, id, score, allowed, active, limit) => CreateBacked(s, c, g, id, score, allowed, active, limit);
    case Consume(g, tokenOk, ending) => ConsumeBacked(s, c, g, tokenOk, ending);
    case _ =>
      forall k | k in t.tickets
        ensures BackedTicket(k, t.tickets[k], t)
      {
        assert k in s.tickets && BackedTicket(k, s.tickets[k], s);
      }
  }

  lemma {:induction false} BackedNeverOverruns(s: Queue, c: Config, run: seq<Event>)
    requires Inv(s) && Timed(c) && Runs(s, c, run) && Backed(s) && forall i :: 0 <= i < |run| ==> !Strands(run[i])
    ensures NeverOverruns(s, c, run)
    decreases |run|
  {
    hide Inv, Step, Enabled, Taken;
    if run != [] {
      if run[0].Consume? && Claims(s, c, run[0].guest, run[0].tokenOk) {
        assert BackedTicket(s.byGuest[run[0].guest].id, s.tickets[s.byGuest[run[0].guest].id], s);
      }
      StepKeepsInv(s, c, run[0]);
      StepKeepsBacked(s, c, run[0]);
      BackedNeverOverruns(Step(s, c, run[0]), c, run[1..]);
    }
  }

  /** A run in which no claim is left stranded keeps the limit throughout. */
  lemma UnstrandedHolds(c: Config, now: int, run: seq<Event>)
    requires Timed(c) && Runs(Empty(now), c, run) && forall i :: 0 <= i < |run| ==> !Strands(run[i])
    ensures Within(Empty(now), c, run)
  {
    EmptyIsFine(c, now);
    BackedNeverOverruns(Empty(now), c, run);
    WithinExactly(Empty(now), c, run);
  }

  // ---------- First come, first served ----------

  predicate Before(waiting: map<Id, int>, a: Id, b: Id)
    requires a in waiting && b in waiting
  {
    waiting[a] < waiting[b] || (waiting[a] == waiting[b] && a <= b)
  }

  /** From s to t a front part of the line has left, and only tickets of that part have changed. */
  ghost predicate FrontLeft(s: Queue, t: Queue) {
    && (forall k :: k in t.waiting ==> k in s.waiting && t.waiting[k] == s.waiting[k])
    && (forall a, b :: a in s.waiting && a !in t.waiting && b in t.waiting ==> b in s.waiting && Before(s.waiting, a, b))
    && (forall k :: k in s.tickets && (k !in s.waiting || k in t.waiting) ==> k in t.tickets && t.tickets[k] == s.tickets[k])
    && (forall k :: k in t.tickets ==> k in s.tickets)
  }

  lemma HeadLeaves(s: Queue, c: Config, id: Id)
    requires IsHead(s.waiting, id)
    ensures FrontLeft(s, HeadTaken(s, c, id))
  {
  }

  lemma FrontLeftTwice(s: Queue, t: Queue, u: Queue)
    requires FrontLeft(s, t) && FrontLeft(t, u)
    ensures FrontLeft(s, u)
  {
  }

  lemma {:induction false} FrontOfLine(s: Queue, c: Config, active: nat, limit: nat)
    ensures FrontLeft(s, AdmitAll(s, c, active, limit))
    decreases |s.waiting|
  {
    if s.waiting != map[] && HasRoom(s, c, active, limit) {
      hide FrontLeft;
      var id := Head(s.waiting);
      Shorter(s.waiting, id);
      HeadLeaves(s, c, id);
      FrontOfLine(HeadTaken(s, c, id), c, active, limit);
      FrontLeftTwice(s, HeadTaken(s, c, id), AdmitAll(s, c, active, limit));
    }
  }

  /** In one clean-up and admission, a ticket that is admitted came before every ticket that goes on waiting. */
  lemma NobodyOvertaken(s: Queue, c: Config, active: nat, limit: nat, a: Id, b: Id)
    requires Inv(s) && Timed(c) && IsWaiting(s.tickets, a) && IsWaiting(s.tickets, b)
    requires var t := CleanedAndAdmitted(s, c, active, limit);
             a in t.tickets && t.tickets[a].status.Admitted? && IsWaiting(t.tickets, b)
    ensures a in s.waiting && b in s.waiting && Before(s.waiting, a, b)
  {
    hide AdmitAll, TicketOk, SessionOk, FrontLeft, Taken, OneEach;
    var t := CleanedAndAdmitted(s, c, active, limit);
    AdmissionKeeps(s, c, active, limit);
    CleanedShape(s);
    FrontOfLine(Cleaned(s), c, active, limit);
    WaitingInLine(s, a);
    WaitingInLine(s, b);
    WaitingInLine(t, b);
    assert a in t.tickets && t.tickets[a] != Cleaned(s).tickets[a];
    LeftBefore(Cleaned(s), t, a, b);
    CleanedLine(s);
  }

  lemma WaitingInLine(s: Queue, id: Id)
    requires Shape(s) && IsWaiting(s.tickets, id)
    ensures id in s.waiting
  {
    assert TicketOk(id, s.tickets[id], s);
  }

  lemma LeftBefore(s: Queue, t: Queue, a: Id, b: Id)
    requires FrontLeft(s, t) && a in s.tickets && b in t.waiting && a in t.tickets && t.tickets[a] != s.tickets[a]
    ensures a in s.waiting && b in s.waiting && Before(s.waiting, a, b)
  {
  }

  lemma CleanedLine(s: Queue)
    ensures forall k :: k in Cleaned(s).waiting ==> k in s.waiting && Cleaned(s).waiting[k] == s.waiting[k]
  {
  }

  // ---------- Where it stops ----------

  const ONE_GUEST: Config := Config(1, 100, 10, 100)

  /** Guest 1 is admitted until 10, guest 2 waits. */
  function OneAdmitted(): Queue {
    Queue(5, map[1 := Ticket(1, Admitted, 10), 2 := Ticket(2, Waiting, 100)], map[1 := Index(1, 10), 2 := Index(2, 100)],
          map[2 := 3], map[1 := 10], map[], {1, 2}, {}, {})
  }

  /** Guest 1's claim was stranded at 5: its ticket now lasts until 15, its reservation still until 10. */
  function OneStranded(): Queue { ConsumedBy(OneAdmitted(), ONE_GUEST, 1, true, Stranded(None)) }

  lemma StrandedTickets()
    ensures OneStranded() == OneAdmitted().(tickets := map[1 := Ticket(1, Consuming, 15), 2 := Ticket(2, Waiting, 100)],
                                            byGuest := map[1 := Index(1, 15), 2 := Index(2, 100)])
  {
  }

  lemma StrandedClean(s: Queue)
    requires s == OneAdmitted().(tickets := map[1 := Ticket(1, Consuming, 15), 2 := Ticket(2, Waiting, 100)],
                                 byGuest := map[1 := Index(1, 15), 2 := Index(2, 100)])
    ensures Cleaned(s) == s.(tickets := map[1 := Ticket(1, Admitted, 15), 2 := Ticket(2, Waiting, 100)])
  {
    assert Pruned(s).waiting == map[2 := 3];
    assert Unreserved(Pruned(s)).reservations == map[1 := 10];
    assert Cleaned(s).tickets == map[1 := Ticket(1, Admitted, 15), 2 := Ticket(2, Waiting, 100)];
  }

  lemma StrandedFacts(swept: Queue)
    requires swept == CleanedAndAdmitted(OneStranded(), ONE_GUEST, 0, 0)
    ensures swept == OneAdmitted().(tickets := map[1 := Ticket(1, Admitted, 15), 2 := Ticket(2, Waiting, 100)],
                                    byGuest := map[1 := Index(1, 15), 2 := Index(2, 100)])
  {
    hide OneStranded, Cleaned;
    StrandedTickets();
    StrandedClean(OneStranded());
    assert !HasRoom(Cleaned(OneStranded()), ONE_GUEST, 0, 0);
  }

  /** Time passes to 10: the reservation is dropped, while guest 1's ticket is still good. */
  lemma LapsedClean(s: Queue)
    requires s == OneAdmitted().(tickets := map[1 := Ticket(1, Admitted, 15), 2 := Ticket(2, Waiting, 100)],
                                 byGuest := map[1 := Index(1, 15), 2 := Index(2, 100)])
    ensures Cleaned(Elapsed(s, 10)) == s.(now := 10, reservations := map[])
  {
    var e := Elapsed(s, 10);
    assert e.tickets == s.tickets && e.byGuest == s.byGuest;
    assert Pruned(e).waiting == map[2 := 3];
    var d := Cleaned(e);
    assert d.reservations == map[] && d.tickets == s.tickets;
  }

  /** Guest 2, the only one in line, is admitted into the free place. */
  lemma OnlyOneInLine(d: Queue, c: Config, id: Id)
    requires d.waiting.Keys == {id} && IsWaiting(d.tickets, id) && HasRoom(d, c, 0, 0)
    ensures AdmitAll(d, c, 0, 0) == HeadTaken(d, c, id)
  {
    assert Head(d.waiting) == id;
    var h := HeadTaken(d, c, id);
    assert h.waiting == map[];
    assert AdmitAll(h, c, 0, 0) == h;
  }

  lemma LapsedFacts(s: Queue, swept: Queue)
    requires s == OneAdmitted().(tickets := map[1 := Ticket(1, Admitted, 15), 2 := Ticket(2, Waiting, 100)],
                                 byGuest := map[1 := Index(1, 15), 2 := Index(2, 100)])
    requires swept == CleanedAndAdmitted(Elapsed(s, 10), ONE_GUEST, 0, 0)
    ensures swept.sessions == map[] && swept.reservations == map[2 := 20] && swept.usedSids == {}
    ensures Claims(swept, ONE_GUEST, 1, true) && swept.byGuest[1].id == 1
  {
    hide AdmitAll, Cleaned, Elapsed;
    LapsedClean(s);
    OnlyOneInLine(s.(now := 10, reservations := map[]), ONE_GUEST, 2);
  }

  lemma Joining(s: Queue)
    requires s == Empty(0)
    ensures CreatedOrGot(s, ONE_GUEST, 1, 1, 1, true, 0, 0) ==
            Queue(0, map[1 := Ticket(1, Admitted, 10)], map[1 := Index(1, 10)], map[], map[1 := 10], map[], {1}, {}, {})
  {
    assert Cleaned(s) == s;
    assert AdmitAll(s, ONE_GUEST, 0, 0) == s;
    var s2 := s.(byGuest := s.byGuest - {1});
    assert s2 == s;
    var d := Enrolled(s, ONE_GUEST, 1, 1, 1);
    assert Cleaned(d) == d;
    OnlyOneInLine(d, ONE_GUEST, 1);
    assert HeadTaken(d, ONE_GUEST, 1).waiting == map[];
  }

  lemma Queuing(s: Queue)
    requires s == Queue(0, map[1 := Ticket(1, Admitted, 10)], map[1 := Index(1, 10)], map[], map[1 := 10], map[], {1}, {}, {})
    ensures CreatedOrGot(s, ONE_GUEST, 2, 2, 3, true, 0, 0) == OneAdmitted().(now := 0)
  {
    assert Cleaned(s) == s;
    assert AdmitAll(s, ONE_GUEST, 0, 0) == s;
    var s2 := s.(byGuest := s.byGuest - {2});
    assert s2 == s;
    var d := Enrolled(s, ONE_GUEST, 2, 2, 3);
    assert d == OneAdmitted().(now := 0);
    assert Cleaned(d) == d;
    assert AdmitAll(d, ONE_GUEST, 0, 0) == d;
  }

  lemma Prepend(s: Queue, c: Config, e: Event, run: seq<Event>)
    requires Enabled(s, e) && Runs(Step(s, c, e), c, run)
    ensures Runs(s, c, [e] + run) && After(s, c, [e] + run) == After(Step(s, c, e), c, run)
  {
    assert ([e] + run)[1..] == run;
  }

  /** Two guests join a queue with one place. */
  function Arrivals(): seq<Event> { [CreateOrGet(1, 1, 1, true, 0, 0), CreateOrGet(2, 2, 3, true, 0, 0), Elapse(5)] }

  lemma Arrived(run: seq<Event>)
    requires Runs(OneAdmitted(), ONE_GUEST, run)
    ensures Runs(Empty(0), ONE_GUEST, Arrivals() + run)
    ensures After(Empty(0), ONE_GUEST, Arrivals() + run) == After(OneAdmitted(), ONE_GUEST, run)
  {
    hide CreatedOrGot;
    Joining(Empty(0));
    var s1 := Step(Empty(0), ONE_GUEST, Arrivals()[0]);
    Queuing(s1);
    var s2 := Step(s1, ONE_GUEST, Arrivals()[1]);
    assert Elapsed(s2, 5) == OneAdmitted();
    Prepend(s2, ONE_GUEST, Arrivals()[2], run);
    Prepend(s1, ONE_GUEST, Arrivals()[1], [Arrivals()[2]] + run);
    Prepend(Empty(0), ONE_GUEST, Arrivals()[0], [Arrivals()[1]] + ([Arrivals()[2]] + run));
    assert Arrivals() + run == [Arrivals()[0]] + ([Arrivals()[1]] + ([Arrivals()[2]] + run));
  }

  /** Guest 1's claim is stranded and recovered; its reservation lapses, guest 2 gets the place, and guest 1 consumes. */
  function Stranding(ending: Ending): seq<Event> {
    [Consume(1, true, Stranded(None))] + ([Sweep(0, 0)] + ([Elapse(10)] + ([Sweep(0, 0)] + [Consume(1, true, ending)])))
  }

  lemma StrandingRuns(ending: Ending)
    requires ending == Completes(7) || ending == NoSession || ending == Undone(7)
    ensures Runs(OneAdmitted(), ONE_GUEST, Stranding(ending))
    ensures Taken(After(OneAdmitted(), ONE_GUEST, Stranding(ending))) == 2
  {
    hide CleanedAndAdmitted, Elapsed, ConsumedBy;
    var stranded := Step(OneAdmitted(), ONE_GUEST, Consume(1, true, Stranded(None)));
    var swept := Step(stranded, ONE_GUEST, Sweep(0, 0));
    StrandedFacts(swept);
    var later := Step(swept, ONE_GUEST, Elapse(10));
    var lapsed := Step(later, ONE_GUEST, Sweep(0, 0));
    LapsedFacts(swept, lapsed);
    var last := Consume(1, true, ending);
    assert Survivors(map[]) == {};
    ConsumeTakes(lapsed, ONE_GUEST, 1, true, ending);
    Prepend(lapsed, ONE_GUEST, last, []);
    assert [last] + [] == [last];
    Prepend(later, ONE_GUEST, Sweep(0, 0), [last]);
    Prepend(swept, ONE_GUEST, Elapse(10), [Sweep(0, 0)] + [last]);
    Prepend(stranded, ONE_GUEST, Sweep(0, 0), [Elapse(10)] + ([Sweep(0, 0)] + [last]));
    Prepend(OneAdmitted(), ONE_GUEST, Consume(1, true, Stranded(None)), [Sweep(0, 0)] + ([Elapse(10)] + ([Sweep(0, 0)] + [last])));
  }

  /** A run from the empty queue, with one place, that ends with two taken: by the session or by the renewed reservation. */
  lemma StrandedClaimOverruns(ending: Ending)
    requires ending == Completes(7) || ending == NoSession || ending == Undone(7)
    ensures var run := Arrivals() + Stranding(ending);
            Runs(Empty(0), ONE_GUEST, run) && Taken(After(Empty(0), ONE_GUEST, run)) == ONE_GUEST.maxGuests + 1
  {
    hide Runs, After, Taken;
    StrandingRuns(ending);
    Arrived(Stranding(ending));
  }
}
