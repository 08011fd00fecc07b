/** ActiveSessionService: at most one live session per customer. A session lives for
    five minutes; expired sessions are closed lazily, when their customer logs in again
    or when the session is validated. The service is not transactional: each `save`
    commits on its own, so a failing call may still have closed sessions. */
module SessionLedger {
  import opened Common
  import opened Entities
  import opened Repositories

  const SessionMinutes: int := 5
  const SessionLength: int := SessionMinutes * NanosPerMinute

  const CustomerNotFound := NotFound("customer")
  const SessionAlreadyActive := Conflict("customer already has an active session")
  const SessionNotFound := NotFound("session")
  const ActiveSessionNotFound := NotFound("active session")

  /** A session ended at its expiry time, as `closeExpiredSessions` and `validateSession` end it. */
  function EndedAtExpiry(session: ActiveSession): (r: ActiveSession)
    ensures r == session.(endedAt := r.endedAt) && r.endedAt == Some(session.expiresAt)
  {
    session.(endedAt := Some(session.expiresAt))
  }

  /** The table after `closeExpiredSessions(customerId, now)`. */
  function CloseLapsed(rows: map<Id, ActiveSession>, customerId: Id, now: Instant): map<Id, ActiveSession> {
    map id | id in rows :: if id in LapsedSessionIds(rows, customerId, now) then EndedAtExpiry(rows[id]) else rows[id]
  }

  /** Closing the lapsed sessions of a customer leaves that customer none, and changes
      nobody's live sessions. */
  lemma CloseLapsedEffect(rows: map<Id, ActiveSession>, customerId: Id, now: Instant, anyCustomer: Id)
    ensures CloseLapsed(rows, customerId, now).Keys == rows.Keys
    ensures LapsedSessionIds(CloseLapsed(rows, customerId, now), customerId, now) == {}
    ensures LiveSessionIds(CloseLapsed(rows, customerId, now), anyCustomer, now) == LiveSessionIds(rows, anyCustomer, now)
    ensures forall id | id in rows && rows[id].customerId != customerId :: CloseLapsed(rows, customerId, now)[id] == rows[id]
  {
    var closed := CloseLapsed(rows, customerId, now);
    assert forall id :: id !in LapsedSessionIds(closed, customerId, now);
    assert forall id :: id in LiveSessionIds(closed, anyCustomer, now) <==> id in LiveSessionIds(rows, anyCustomer, now);
  }

  /** The session a successful login creates. */
  function NewSession(customerId: Id, now: Instant): (s: ActiveSession)
    ensures s.customerId == customerId && s.startedAt == now && s.endedAt.None?
    ensures s.expiresAt - s.startedAt == 5 * 60 * NanosPerSecond
  {
    ActiveSession(0, customerId, now, now + SessionLength, None)
  }

  /** The table after `logout(sessionId)` at `now`: an un-ended session ends now;
      an ended one is left alone. */
  function LoggedOut(rows: map<Id, ActiveSession>, sessionId: Id, now: Instant): map<Id, ActiveSession> {
    if sessionId in rows && rows[sessionId].endedAt.None?
    then rows[sessionId := rows[sessionId].(endedAt := Some(now))]
    else rows
  }

  /** A second logout, at any later time, changes nothing. */
  lemma LogoutIdempotent(rows: map<Id, ActiveSession>, sessionId: Id, first: Instant, later: Instant)
    ensures LoggedOut(LoggedOut(rows, sessionId, first), sessionId, later) == LoggedOut(rows, sessionId, first)
    ensures sessionId in rows ==> LoggedOut(rows, sessionId, first)[sessionId].endedAt.Some?
  {
  }

  /** The table after a `validateSession` that finds the session no longer live. */
  function ClosedOnValidate(rows: map<Id, ActiveSession>, sessionId: Id): map<Id, ActiveSession> {
    if sessionId in rows && rows[sessionId].endedAt.None?
    then rows[sessionId := EndedAtExpiry(rows[sessionId])]
    else rows
  }

  class ActiveSessionService {
    const sessions: ActiveSessionRepository
    const customers: CustomerRepository

    ghost predicate Valid()
      reads this, sessions, customers
    {
      sessions.Valid() && customers.Valid()
    }

    constructor (sessions: ActiveSessionRepository, customers: CustomerRepository)
      ensures this.sessions == sessions && this.customers == customers
    {
      this.sessions := sessions;
      this.customers := customers;
    }

    /** `closeExpiredSessions`: ends each lapsed session of the customer at its expiry time. */
    method CloseExpiredSessions(customerId: Id, now: Instant)
      requires Valid()
      modifies sessions
      ensures Valid()
      ensures sessions.rows == CloseLapsed(old(sessions.rows), customerId, now)
    {
      var expired := sessions.FindByCustomerIdAndEndedAtIsNullAndExpiresAtLessThanEqual(customerId, now);
      ghost var rows0 := sessions.rows;
      ghost var lapsed := LapsedSessionIds(rows0, customerId, now);
      ghost var done: set<Id> := {};
      if |expired| != 0 {
        var i := 0;
        while i < |expired|
          invariant 0 <= i <= |expired|
          invariant sessions.Valid()
          invariant sessions.rows.Keys == rows0.Keys
          invariant done == set j | 0 <= j < i :: expired[j].id
          invariant done <= lapsed
          invariant forall id | id in rows0 :: sessions.rows[id] == (if id in done then EndedAtExpiry(rows0[id]) else rows0[id])
        {
          var session := expired[i];
          sessions.Update(EndedAtExpiry(session));
          done := done + {session.id};
          i := i + 1;
        }
      }
      forall id | id in lapsed
        ensures id in done
      {
        assert rows0[id] in expired;
        var j :| 0 <= j < |expired| && expired[j] == rows0[id];
        assert expired[j].id == id;
      }
      assert sessions.rows.Keys == CloseLapsed(rows0, customerId, now).Keys;
      forall id | id in rows0
        ensures sessions.rows[id] == CloseLapsed(rows0, customerId, now)[id]
      {
      }
    }

    /** `login`. */
    method Login(customerId: Id, now: Instant) returns (result: Result<ActiveSession>)
      requires Valid()
      modifies sessions
      ensures Valid()
      ensures customerId !in customers.rows ==> result == Failure(CustomerNotFound) && sessions.rows == old(sessions.rows)
      ensures customerId in customers.rows && LiveSessionIds(old(sessions.rows), customerId, now) != {} ==>
        result == Failure(SessionAlreadyActive) && sessions.rows == CloseLapsed(old(sessions.rows), customerId, now)
      ensures customerId in customers.rows && LiveSessionIds(old(sessions.rows), customerId, now) == {} ==>
        result.Success?
        && result.value == NewSession(customerId, now).(id := result.value.id)
        && result.value.id !in old(sessions.rows)
        && sessions.rows == CloseLapsed(old(sessions.rows), customerId, now)[result.value.id := result.value]
      ensures result.Success? ==> LiveSessionIds(sessions.rows, customerId, now) == {result.value.id}
    {
      if customerId !in customers.rows {
        return Failure(CustomerNotFound);
      }
      ghost var rows0 := sessions.rows;
      CloseExpiredSessions(customerId, now);
      CloseLapsedEffect(rows0, customerId, now, customerId);
      var live := sessions.FindFirstByCustomerIdAndEndedAtIsNullAndExpiresAtAfter(customerId, now);
      if live.Some? {
        return Failure(SessionAlreadyActive);
      }
      ghost var closed := sessions.rows;
      var saved := sessions.Insert(NewSession(customerId, now));
      assert forall id :: id in LiveSessionIds(sessions.rows, customerId, now) <==> id == saved.id by {
        forall id ensures id in LiveSessionIds(sessions.rows, customerId, now) <==> id == saved.id {
          if id != saved.id && id in sessions.rows {
            assert sessions.rows[id] == closed[id];
            assert id !in LiveSessionIds(closed, customerId, now);
          }
        }
      }
      result := Success(saved);
    }

    /** `validateSession`: returns a live session; a session that is not live is reported
        missing, after being ended at its expiry time if it was still open. */
    method ValidateSession(sessionId: Id, now: Instant) returns (result: Result<ActiveSession>)
      requires Valid()
      modifies sessions
      ensures Valid()
      ensures sessionId !in old(sessions.rows) ==> result == Failure(SessionNotFound) && sessions.rows == old(sessions.rows)
      ensures sessionId in old(sessions.rows) && IsLive(old(sessions.rows)[sessionId], now) ==>
        result == Success(old(sessions.rows)[sessionId]) && sessions.rows == old(sessions.rows)
      ensures sessionId in old(sessions.rows) && !IsLive(old(sessions.rows)[sessionId], now) ==>
        result == Failure(ActiveSessionNotFound) && sessions.rows == ClosedOnValidate(old(sessions.rows), sessionId)
    {
      if sessionId !in sessions.rows {
        return Failure(SessionNotFound);
      }
      var session := sessions.rows[sessionId];
      if session.endedAt.Some? || !(session.expiresAt > now) {
        if session.endedAt.None? {
          sessions.Update(EndedAtExpiry(session));
        }
        return Failure(ActiveSessionNotFound);
      }
      result := Success(session);
    }

    /** `logout`: ends the session now, unless it has already ended. */
    method Logout(sessionId: Id, now: Instant) returns (r: Outcome)
      requires Valid()
      modifies sessions
      ensures Valid()
      ensures sessionId !in old(sessions.rows) <==> r == Fail(SessionNotFound)
      ensures r.Pass? || r == Fail(SessionNotFound)
      ensures sessions.rows == LoggedOut(old(sessions.rows), sessionId, now)
    {
      if sessionId !in sessions.rows {
        return Fail(SessionNotFound);
      }
      var session := sessions.rows[sessionId];
      if session.endedAt.None? {
        sessions.Update(session.(endedAt := Some(now)));
      }
      r := Pass;
    }
  }

  // ---------------------------------------------------------------------------
  // ActiveSessionResponse

  datatype ActiveSessionResponse = ActiveSessionResponse(
    id: Id,
    customerId: Id,
    startedAt: Instant,
    expiresAt: Instant,
    endedAt: Option<Instant>,
    active: bool)

  /** `ActiveSessionResponse.fromEntity`, read at `now`. */
  function SessionResponseFromEntity(entity: ActiveSession, now: Instant): (r: ActiveSessionResponse)
    ensures r.id == entity.id && r.customerId == entity.customerId
    ensures r.startedAt == entity.startedAt && r.expiresAt == entity.expiresAt && r.endedAt == entity.endedAt
    ensures r.active <==> IsLive(entity, now)
    ensures entity.endedAt.Some? ==> !r.active
  {
    ActiveSessionResponse(entity.id, entity.customerId, entity.startedAt, entity.expiresAt, entity.endedAt,
                          entity.endedAt.None? && entity.expiresAt > now)
  }

  /** A session fresh from login is reported active at any time before it expires,
      and inactive from its expiry on. */
  lemma FreshSessionActiveUntilExpiry(customerId: Id, now: Instant, id: Id, later: Instant)
    ensures SessionResponseFromEntity(NewSession(customerId, now).(id := id), later).active
            <==> later < now + SessionLength
  {
  }
}
