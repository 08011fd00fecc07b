/** The Spring Data repositories: one table per entity, keyed by its IDENTITY id.
    Derived queries are functions over the table's rows; a query whose SQL has no
    ORDER BY is a method that may return its rows in any order. */
module Repositories {
  import opened Common
  import opened Geometry
  import opened Entities

  // ---------------------------------------------------------------------------
  // Customers. CustomerRepository.java is not part of this model; its derived
  // queries (`existsByEmailIgnoreCase`, `...AndIdNot`, `findByEmailIgnoreCase`)
  // are modelled by their names, comparing with `UPPER(...)` as Spring Data does,
  // which on ASCII is the same as comparing lower-cased strings.

  predicate SameEmailIgnoringCase(a: string, b: string) {
    ToLower(a) == ToLower(b)
  }

  predicate ExistsByEmailIgnoreCase(rows: map<Id, Customer>, email: string) {
    exists id | id in rows :: SameEmailIgnoringCase(rows[id].email, email)
  }

  /** Ignores the customer `excluded`: true only when some OTHER customer has the email. */
  predicate ExistsByEmailIgnoreCaseAndIdNot(rows: map<Id, Customer>, email: string, excluded: Id)
    ensures ExistsByEmailIgnoreCaseAndIdNot(rows, email, excluded) ==> ExistsByEmailIgnoreCase(rows, email)
    ensures (forall id | id in rows && SameEmailIgnoringCase(rows[id].email, email) :: id == excluded)
            ==> !ExistsByEmailIgnoreCaseAndIdNot(rows, email, excluded)
  {
    exists id | id in rows && id != excluded :: SameEmailIgnoringCase(rows[id].email, email)
  }

  class CustomerRepository {
    var rows: map<Id, Customer>
    var lastId: Id

    ghost predicate Valid()
      reads this
    {
      0 <= lastId && forall id | id in rows :: 0 < id <= lastId && rows[id].id == id
    }

    constructor ()
      ensures Valid() && rows == map[]
    {
      rows := map[];
      lastId := 0;
    }

    /** `save` of a new entity: the IDENTITY column hands out the next id. */
    method Insert(entity: Customer) returns (saved: Customer)
      requires Valid()
      modifies this
      ensures Valid()
      ensures saved == entity.(id := saved.id) && saved.id !in old(rows)
      ensures rows == old(rows)[saved.id := saved]
    {
      lastId := lastId + 1;
      saved := entity.(id := lastId);
      rows := rows[lastId := saved];
    }

    /** `save` of an entity read from the table. */
    method Update(entity: Customer)
      requires Valid() && entity.id in rows
      modifies this
      ensures Valid() && rows == old(rows)[entity.id := entity]
    {
      rows := rows[entity.id := entity];
    }

    method Delete(id: Id)
      requires Valid()
      modifies this
      ensures Valid() && rows == old(rows) - {id}
    {
      rows := rows - {id};
    }

    /** `findByEmailIgnoreCase`: some customer whose email matches, ignoring case. */
    method FindByEmailIgnoreCase(email: string) returns (found: Option<Customer>)
      requires Valid()
      ensures found.None? <==> !ExistsByEmailIgnoreCase(rows, email)
      ensures found.Some? ==> found.value.id in rows && rows[found.value.id] == found.value
                              && SameEmailIgnoringCase(found.value.email, email)
    {
      if id :| id in rows && SameEmailIgnoringCase(rows[id].email, email) {
        found := Some(rows[id]);
      } else {
        found := None;
      }
    }
  }

  // ---------------------------------------------------------------------------
  // Delivery addresses

  class DeliveryAddressRepository {
    var rows: map<Id, DeliveryAddress>
    var lastId: Id

    ghost predicate Valid()
      reads this
    {
      0 <= lastId && forall id | id in rows :: 0 < id <= lastId && rows[id].id == id
    }

    constructor ()
      ensures Valid() && rows == map[]
    {
      rows := map[];
      lastId := 0;
    }

    method Insert(entity: DeliveryAddress) returns (saved: DeliveryAddress)
      requires Valid()
      modifies this
      ensures Valid()
      ensures saved == entity.(id := saved.id) && saved.id !in old(rows)
      ensures rows == old(rows)[saved.id := saved]
    {
      lastId := lastId + 1;
      saved := entity.(id := lastId);
      rows := rows[lastId := saved];
    }

    method Update(entity: DeliveryAddress)
      requires Valid() && entity.id in rows
      modifies this
      ensures Valid() && rows == old(rows)[entity.id := entity]
    {
      rows := rows[entity.id := entity];
    }

    method Delete(id: Id)
      requires Valid()
      modifies this
      ensures Valid() && rows == old(rows) - {id}
    {
      rows := rows - {id};
    }
  }

  // ---------------------------------------------------------------------------
  // Zone coverages

  /** The WHERE clause of `findByPointInsideBoundary`: an active zone with a boundary
      that contains the point. `contains` stands for PostGIS `ST_Contains`. */
  predicate CoversPoint(zone: ZoneCoverage, point: Coordinate, contains: (PolygonShape, Coordinate) -> bool) {
    zone.isActive && zone.boundary.Some? && contains(zone.boundary.value, point)
  }

  class ZoneCoverageRepository {
    var rows: map<Id, ZoneCoverage>
    var lastId: Id

    ghost predicate Valid()
      reads this
    {
      0 <= lastId && forall id | id in rows :: 0 < id <= lastId && rows[id].id == id
    }

    constructor ()
      ensures Valid() && rows == map[]
    {
      rows := map[];
      lastId := 0;
    }

    method Insert(entity: ZoneCoverage) returns (saved: ZoneCoverage)
      requires Valid()
      modifies this
      ensures Valid()
      ensures saved == entity.(id := saved.id) && saved.id !in old(rows)
      ensures rows == old(rows)[saved.id := saved]
    {
      lastId := lastId + 1;
      saved := entity.(id := lastId);
      rows := rows[lastId := saved];
    }

    method Update(entity: ZoneCoverage)
      requires Valid() && entity.id in rows
      modifies this
      ensures Valid() && rows == old(rows)[entity.id := entity]
    {
      rows := rows[entity.id := entity];
    }

    method Delete(id: Id)
      requires Valid()
      modifies this
      ensures Valid() && rows == old(rows) - {id}
    {
      rows := rows - {id};
    }

    /** `findByPointInsideBoundary`: every covering zone exactly once, in no particular
        order (the query has no ORDER BY). */
    method FindByPointInsideBoundary(point: Coordinate, contains: (PolygonShape, Coordinate) -> bool)
      returns (zones: seq<ZoneCoverage>)
      requires Valid()
      ensures forall i | 0 <= i < |zones| ::
        zones[i].id in rows && rows[zones[i].id] == zones[i] && CoversPoint(zones[i], point, contains)
      ensures forall id | id in rows && CoversPoint(rows[id], point, contains) :: rows[id] in zones
      ensures forall i, j | 0 <= i < j < |zones| :: zones[i].id != zones[j].id
    {
      var pending := rows.Keys;
      zones := [];
      while pending != {}
        invariant pending <= rows.Keys
        invariant forall i | 0 <= i < |zones| ::
          zones[i].id in rows && zones[i].id !in pending && rows[zones[i].id] == zones[i]
          && CoversPoint(zones[i], point, contains)
        invariant forall id | id in rows && id !in pending && CoversPoint(rows[id], point, contains) :: rows[id] in zones
        invariant forall i, j | 0 <= i < j < |zones| :: zones[i].id != zones[j].id
        decreases |pending|
      {
        var id := Pick(pending);
        pending := pending - {id};
        if CoversPoint(rows[id], point, contains) {
          zones := zones + [rows[id]];
        }
      }
    }
  }

  // ---------------------------------------------------------------------------
  // Delivery slots

  predicate ExistsByDeliveryDateAndTimeSlotTemplateId(rows: map<Id, DeliverySlot>, date: LocalDate, templateId: Id) {
    exists id | id in rows :: rows[id].deliveryDate == date && rows[id].timeSlotTemplateId == templateId
  }

  /** The `IdNot` variant leaves the slot `excluded` out of the search. */
  predicate ExistsByDeliveryDateAndTimeSlotTemplateIdAndIdNot(
    rows: map<Id, DeliverySlot>, date: LocalDate, templateId: Id, excluded: Id)
    ensures ExistsByDeliveryDateAndTimeSlotTemplateIdAndIdNot(rows, date, templateId, excluded)
            ==> ExistsByDeliveryDateAndTimeSlotTemplateId(rows, date, templateId)
    ensures (forall id | id in rows && rows[id].deliveryDate == date && rows[id].timeSlotTemplateId == templateId ::
               id == excluded)
            ==> !ExistsByDeliveryDateAndTimeSlotTemplateIdAndIdNot(rows, date, templateId, excluded)
  {
    exists id | id in rows && id != excluded ::
      rows[id].deliveryDate == date && rows[id].timeSlotTemplateId == templateId
  }

  /** `findByIdForUpdate`, as a plain read: the lock it takes is not modelled. */
  function FindByIdForUpdate(rows: map<Id, DeliverySlot>, id: Id): (found: Option<DeliverySlot>)
    ensures found.None? <==> id !in rows
    ensures found.Some? ==> found.value == rows[id]
  {
    if id in rows then Some(rows[id]) else None
  }

  class DeliverySlotRepository {
    var rows: map<Id, DeliverySlot>
    var lastId: Id

    ghost predicate Valid()
      reads this
    {
      0 <= lastId && forall id | id in rows :: 0 < id <= lastId && rows[id].id == id
    }

    constructor ()
      ensures Valid() && rows == map[]
    {
      rows := map[];
      lastId := 0;
    }

    method Insert(entity: DeliverySlot) returns (saved: DeliverySlot)
      requires Valid()
      modifies this
      ensures Valid()
      ensures saved == entity.(id := saved.id) && saved.id !in old(rows)
      ensures rows == old(rows)[saved.id := saved]
    {
      lastId := lastId + 1;
      saved := entity.(id := lastId);
      rows := rows[lastId := saved];
    }

    method Update(entity: DeliverySlot)
      requires Valid() && entity.id in rows
      modifies this
      ensures Valid() && rows == old(rows)[entity.id := entity]
    {
      rows := rows[entity.id := entity];
    }

    method Delete(id: Id)
      requires Valid()
      modifies this
      ensures Valid() && rows == old(rows) - {id}
    {
      rows := rows - {id};
    }
  }

  // ---------------------------------------------------------------------------
  // Time slot templates

  predicate ExistsByStartTimeAndEndTime(rows: map<Id, TimeSlotTemplate>, start: LocalTime, end: LocalTime) {
    exists id | id in rows :: rows[id].startTime == start && rows[id].endTime == end
  }

  predicate ExistsByStartTimeAndEndTimeAndIdNot(
    rows: map<Id, TimeSlotTemplate>, start: LocalTime, end: LocalTime, excluded: Id)
    ensures ExistsByStartTimeAndEndTimeAndIdNot(rows, start, end, excluded) ==> ExistsByStartTimeAndEndTime(rows, start, end)
    ensures (forall id | id in rows && rows[id].startTime == start && rows[id].endTime == end :: id == excluded)
            ==> !ExistsByStartTimeAndEndTimeAndIdNot(rows, start, end, excluded)
  {
    exists id | id in rows && id != excluded :: rows[id].startTime == start && rows[id].endTime == end
  }

  class TimeSlotTemplateRepository {
    var rows: map<Id, TimeSlotTemplate>
    var lastId: Id

    ghost predicate Valid()
      reads this
    {
      0 <= lastId && forall id | id in rows :: 0 < id <= lastId && rows[id].id == id
    }

    constructor ()
      ensures Valid() && rows == map[]
    {
      rows := map[];
      lastId := 0;
    }

    method Insert(entity: TimeSlotTemplate) returns (saved: TimeSlotTemplate)
      requires Valid()
      modifies this
      ensures Valid()
      ensures saved == entity.(id := saved.id) && saved.id !in old(rows)
      ensures rows == old(rows)[saved.id := saved]
    {
      lastId := lastId + 1;
      saved := entity.(id := lastId);
      rows := rows[lastId := saved];
    }

    method Update(entity: TimeSlotTemplate)
      requires Valid() && entity.id in rows
      modifies this
      ensures Valid() && rows == old(rows)[entity.id := entity]
    {
      rows := rows[entity.id := entity];
    }

    method Delete(id: Id)
      requires Valid()
      modifies this
      ensures Valid() && rows == old(rows) - {id}
    {
      rows := rows - {id};
    }
  }

  // ---------------------------------------------------------------------------
  // Reservations

  /** The reservations of slot `slotId` with status `status`. */
  function ReservationIds(rows: map<Id, Reservation>, slotId: Id, status: ReservationStatus): set<Id> {
    set id | id in rows && rows[id].deliverySlotId == slotId && rows[id].status == status
  }

  predicate Counted(rows: map<Id, Reservation>, slotId: Id, status: ReservationStatus, id: Id) {
    id in rows && rows[id].deliverySlotId == slotId && rows[id].status == status
  }

  /** `countByDeliverySlotIdAndStatus`. */
  function CountByDeliverySlotIdAndStatus(rows: map<Id, Reservation>, slotId: Id, status: ReservationStatus): (n: nat)
    ensures n == |ReservationIds(rows, slotId, status)|
    ensures n <= |rows|
  {
    assert ReservationIds(rows, slotId, status) <= rows.Keys;
    SubsetCardinality(ReservationIds(rows, slotId, status), rows.Keys);
    |ReservationIds(rows, slotId, status)|
  }

  /** `countByDeliverySlotIdAndStatusAndIdNot`: the same count with reservation `excluded`
      left out; it is one less exactly when `excluded` itself is counted. */
  function CountByDeliverySlotIdAndStatusAndIdNot(
    rows: map<Id, Reservation>, slotId: Id, status: ReservationStatus, excluded: Id): (n: nat)
    ensures n == |ReservationIds(rows, slotId, status) - {excluded}|
    ensures n <= CountByDeliverySlotIdAndStatus(rows, slotId, status)
    ensures n + (if Counted(rows, slotId, status, excluded) then 1 else 0)
            == CountByDeliverySlotIdAndStatus(rows, slotId, status)
  {
    var counted := set id | id in rows && id != excluded && rows[id].deliverySlotId == slotId && rows[id].status == status;
    var all := ReservationIds(rows, slotId, status);
    assert counted == all - {excluded};
    assert excluded in all ==> all == counted + {excluded};
    assert excluded !in all ==> all == counted;
    |counted|
  }

  lemma SubsetCardinality<T>(a: set<T>, b: set<T>)
    requires a <= b
    ensures |a| <= |b|
  {
    assert b == a + (b - a);
  }

  /** Saving `r` recounts a slot as if `r`'s previous row were left out and `r` added. */
  lemma CountAfterSave(rows: map<Id, Reservation>, r: Reservation, slotId: Id, status: ReservationStatus)
    ensures CountByDeliverySlotIdAndStatus(rows[r.id := r], slotId, status)
         == CountByDeliverySlotIdAndStatusAndIdNot(rows, slotId, status, r.id)
            + (if r.deliverySlotId == slotId && r.status == status then 1 else 0)
  {
    var before := ReservationIds(rows, slotId, status) - {r.id};
    var added: set<Id> := if r.deliverySlotId == slotId && r.status == status then {r.id} else {};
    IdsAfterSave(rows, r, slotId, status);
    assert before * added == {};
    assert |before + added| == |before| + |added|;
  }

  lemma IdsAfterSave(rows: map<Id, Reservation>, r: Reservation, slotId: Id, status: ReservationStatus)
    ensures ReservationIds(rows[r.id := r], slotId, status)
         == (ReservationIds(rows, slotId, status) - {r.id})
            + (if r.deliverySlotId == slotId && r.status == status then {r.id} else {})
  {
  }

  /** Deleting reservation `id` recounts a slot as the count that leaves `id` out. */
  lemma CountAfterDelete(rows: map<Id, Reservation>, id: Id, slotId: Id, status: ReservationStatus)
    ensures CountByDeliverySlotIdAndStatus(rows - {id}, slotId, status)
         == CountByDeliverySlotIdAndStatusAndIdNot(rows, slotId, status, id)
  {
    assert ReservationIds(rows - {id}, slotId, status) == ReservationIds(rows, slotId, status) - {id};
  }

  /** `ORDER BY reserved_at DESC, id DESC`; PostgreSQL sorts nulls first in a descending order. */
  predicate ListedBefore(a: Reservation, b: Reservation) {
    match (a.reservedAt, b.reservedAt)
    case (None, None) => a.id > b.id
    case (None, Some(_)) => true
    case (Some(_), None) => false
    case (Some(x), Some(y)) =>
      x.ToInstant() > y.ToInstant() || (x.ToInstant() == y.ToInstant() && a.id > b.id)
  }

  lemma ListedBeforeTotal(a: Reservation, b: Reservation)
    requires a.id != b.id
    ensures ListedBefore(a, b) || ListedBefore(b, a)
  {
  }

  lemma ListedBeforeTransitive(a: Reservation, b: Reservation, c: Reservation)
    requires ListedBefore(a, b) && ListedBefore(b, c)
    ensures ListedBefore(a, c)
  {
  }

  predicate SortedNewestFirst(s: seq<Reservation>) {
    forall i, j | 0 <= i < j < |s| :: ListedBefore(s[i], s[j])
  }

  lemma ListedBeforeAsymmetric(a: Reservation, b: Reservation)
    ensures !(ListedBefore(a, b) && ListedBefore(b, a))
  {
  }

  lemma SortedHeadFirst(s: seq<Reservation>, x: Reservation)
    requires SortedNewestFirst(s) && x in s
    ensures x == s[0] || ListedBefore(s[0], x)
  {
    var k :| 0 <= k < |s| && s[k] == x;
  }

  /** Exactly the reservations of `customerId`, newest first, ties broken by the larger id. */
  ghost predicate IsHistory(rows: map<Id, Reservation>, customerId: Id, s: seq<Reservation>) {
    SortedNewestFirst(s)
    && (forall i | 0 <= i < |s| :: s[i].id in rows && rows[s[i].id] == s[i] && s[i].customerId == customerId)
    && (forall id | id in rows && rows[id].customerId == customerId :: rows[id] in s)
  }

  /** Puts `x` into a list sorted newest first. */
  function InsertListed(s: seq<Reservation>, x: Reservation): (r: seq<Reservation>)
    requires SortedNewestFirst(s)
    requires forall i | 0 <= i < |s| :: s[i].id != x.id
    ensures SortedNewestFirst(r)
    ensures |r| == |s| + 1
    ensures forall y :: y in r <==> y in s || y == x
  {
    if s == [] then [x]
    else if ListedBefore(x, s[0]) then
      assert forall j | 0 <= j < |s| :: ListedBefore(x, s[j]) by {
        forall j | 0 <= j < |s|
          ensures ListedBefore(x, s[j])
        {
          if j > 0 { ListedBeforeTransitive(x, s[0], s[j]); }
        }
      }
      [x] + s
    else
      ListedBeforeTotal(x, s[0]);
      var rest := InsertListed(s[1..], x);
      assert forall y | y in rest :: ListedBefore(s[0], y) by {
        forall y | y in rest
          ensures ListedBefore(s[0], y)
        {
          if y != x {
            var k :| 0 <= k < |s[1..]| && s[1..][k] == y;
            assert s[k + 1] == y;
          }
        }
      }
      [s[0]] + rest
  }

  /** A strictly sorted list is fixed by its elements: the history of a customer is unique. */
  lemma {:induction false} SortedBySameElements(a: seq<Reservation>, b: seq<Reservation>)
    requires SortedNewestFirst(a) && SortedNewestFirst(b)
    requires forall x :: x in a <==> x in b
    ensures a == b
    decreases |a|
  {
    assert a != [] ==> a[0] in b;
    assert b != [] ==> b[0] in a;
    if a != [] {
      SortedHeadFirst(b, a[0]);
      SortedHeadFirst(a, b[0]);
      ListedBeforeAsymmetric(a[0], b[0]);
      assert a[0] == b[0];
      forall x
        ensures x in a[1..] <==> x in b[1..]
      {
        if x in a[1..] {
          var i :| 1 <= i < |a| && a[i] == x;
          assert ListedBefore(a[0], a[i]);
          assert x in a && x in b;
          var j :| 0 <= j < |b| && b[j] == x;
          assert j != 0;
          assert b[1..][j - 1] == x;
        }
        if x in b[1..] {
          var i :| 1 <= i < |b| && b[i] == x;
          assert ListedBefore(b[0], b[i]);
          assert x in b && x in a;
          var j :| 0 <= j < |a| && a[j] == x;
          assert j != 0;
          assert a[1..][j - 1] == x;
        }
      }
      SortedBySameElements(a[1..], b[1..]);
      assert a == [a[0]] + a[1..];
      assert b == [b[0]] + b[1..];
    }
  }

  lemma HistoryIsUnique(rows: map<Id, Reservation>, customerId: Id, s: seq<Reservation>, t: seq<Reservation>)
    requires IsHistory(rows, customerId, s) && IsHistory(rows, customerId, t)
    ensures s == t
  {
    forall x
      ensures x in s <==> x in t
    {
      if x in s {
        var i :| 0 <= i < |s| && s[i] == x;
        assert rows[x.id] in t;
      }
      if x in t {
        var i :| 0 <= i < |t| && t[i] == x;
        assert rows[x.id] in s;
      }
    }
    SortedBySameElements(s, t);
  }

  class ReservationRepository {
    var rows: map<Id, Reservation>
    var lastId: Id

    ghost predicate Valid()
      reads this
    {
      0 <= lastId && forall id | id in rows :: 0 < id <= lastId && rows[id].id == id
    }

    constructor ()
      ensures Valid() && rows == map[]
    {
      rows := map[];
      lastId := 0;
    }

    method Insert(entity: Reservation) returns (saved: Reservation)
      requires Valid()
      modifies this
      ensures Valid()
      ensures saved == entity.(id := saved.id) && saved.id !in old(rows)
      ensures rows == old(rows)[saved.id := saved]
    {
      lastId := lastId + 1;
      saved := entity.(id := lastId);
      rows := rows[lastId := saved];
    }

    method Update(entity: Reservation)
      requires Valid() && entity.id in rows
      modifies this
      ensures Valid() && rows == old(rows)[entity.id := entity]
    {
      rows := rows[entity.id := entity];
    }

    method Delete(id: Id)
      requires Valid()
      modifies this
      ensures Valid() && rows == old(rows) - {id}
    {
      rows := rows - {id};
    }

    /** `findByCustomerIdOrderByReservedAtDescIdDesc`. */
    method FindByCustomerIdOrderByReservedAtDescIdDesc(customerId: Id) returns (found: seq<Reservation>)
      requires Valid()
      ensures IsHistory(rows, customerId, found)
    {
      var pending := rows.Keys;
      found := [];
      while pending != {}
        invariant pending <= rows.Keys
        invariant SortedNewestFirst(found)
        invariant forall i | 0 <= i < |found| ::
          found[i].id in rows && found[i].id !in pending && rows[found[i].id] == found[i]
          && found[i].customerId == customerId
        invariant forall id | id in rows && id !in pending && rows[id].customerId == customerId :: rows[id] in found
        decreases |pending|
      {
        var id := Pick(pending);
        pending := pending - {id};
        if rows[id].customerId == customerId {
          var previous := found;
          found := InsertListed(previous, rows[id]);
          forall i | 0 <= i < |found|
            ensures found[i].id in rows && found[i].id !in pending && rows[found[i].id] == found[i]
            ensures found[i].customerId == customerId
          {
            assert found[i] in previous || found[i] == rows[id];
          }
        }
      }
    }
  }

  // ---------------------------------------------------------------------------
  // Active sessions

  /** Un-ended and not yet expired: `endedAt IS NULL AND expiresAt > now`. */
  predicate IsLive(session: ActiveSession, now: Instant) {
    session.endedAt.None? && session.expiresAt > now
  }

  /** Un-ended but expired: `endedAt IS NULL AND expiresAt <= now`. */
  predicate IsLapsed(session: ActiveSession, now: Instant) {
    session.endedAt.None? && session.expiresAt <= now
  }

  function LiveSessionIds(rows: map<Id, ActiveSession>, customerId: Id, now: Instant): set<Id> {
    set id | id in rows && rows[id].customerId == customerId && IsLive(rows[id], now)
  }

  function LapsedSessionIds(rows: map<Id, ActiveSession>, customerId: Id, now: Instant): set<Id> {
    set id | id in rows && rows[id].customerId == customerId && IsLapsed(rows[id], now)
  }

  /** The customer's un-ended sessions; the two queries split them without overlap. */
  function OpenSessionIds(rows: map<Id, ActiveSession>, customerId: Id, now: Instant): (open: set<Id>)
    ensures open == LiveSessionIds(rows, customerId, now) + LapsedSessionIds(rows, customerId, now)
    ensures LiveSessionIds(rows, customerId, now) * LapsedSessionIds(rows, customerId, now) == {}
    ensures forall id | id in open :: id in rows && rows[id].customerId == customerId
  {
    var live := LiveSessionIds(rows, customerId, now);
    var lapsed := LapsedSessionIds(rows, customerId, now);
    var open := set id | id in rows && rows[id].customerId == customerId && rows[id].endedAt.None?;
    assert forall id :: id in open <==> id in live || id in lapsed;
    assert forall id :: !(id in live && id in lapsed);
    open
  }

  class ActiveSessionRepository {
    var rows: map<Id, ActiveSession>
    var lastId: Id

    ghost predicate Valid()
      reads this
    {
      0 <= lastId && forall id | id in rows :: 0 < id <= lastId && rows[id].id == id
    }

    constructor ()
      ensures Valid() && rows == map[]
    {
      rows := map[];
      lastId := 0;
    }

    method Insert(entity: ActiveSession) returns (saved: ActiveSession)
      requires Valid()
      modifies this
      ensures Valid()
      ensures saved == entity.(id := saved.id) && saved.id !in old(rows)
      ensures rows == old(rows)[saved.id := saved]
    {
      lastId := lastId + 1;
      saved := entity.(id := lastId);
      rows := rows[lastId := saved];
    }

    method Update(entity: ActiveSession)
      requires Valid() && entity.id in rows
      modifies this
      ensures Valid() && rows == old(rows)[entity.id := entity]
    {
      rows := rows[entity.id := entity];
    }

    /** `findFirstByCustomerIdAndEndedAtIsNullAndExpiresAtAfter`. */
    method FindFirstByCustomerIdAndEndedAtIsNullAndExpiresAtAfter(customerId: Id, now: Instant)
      returns (found: Option<ActiveSession>)
      requires Valid()
      ensures found.None? <==> LiveSessionIds(rows, customerId, now) == {}
      ensures found.Some? ==> found.value.id in LiveSessionIds(rows, customerId, now)
                              && rows[found.value.id] == found.value
    {
      var live := LiveSessionIds(rows, customerId, now);
      if live != {} {
        var id := Pick(live);
        found := Some(rows[id]);
      } else {
        found := None;
      }
    }

    /** `findByCustomerIdAndEndedAtIsNullAndExpiresAtLessThanEqual`, in no particular order. */
    method FindByCustomerIdAndEndedAtIsNullAndExpiresAtLessThanEqual(customerId: Id, now: Instant)
      returns (found: seq<ActiveSession>)
      requires Valid()
      ensures forall i | 0 <= i < |found| ::
        found[i].id in LapsedSessionIds(rows, customerId, now) && rows[found[i].id] == found[i]
      ensures forall id | id in LapsedSessionIds(rows, customerId, now) :: rows[id] in found
      ensures forall i, j | 0 <= i < j < |found| :: found[i].id != found[j].id
    {
      var pending := rows.Keys;
      found := [];
      while pending != {}
        invariant pending <= rows.Keys
        invariant forall i | 0 <= i < |found| ::
          found[i].id in LapsedSessionIds(rows, customerId, now) && found[i].id !in pending
          && rows[found[i].id] == found[i]
        invariant forall id | id in LapsedSessionIds(rows, customerId, now) && id !in pending :: rows[id] in found
        invariant forall i, j | 0 <= i < j < |found| :: found[i].id != found[j].id
        decreases |pending|
      {
        var id := Pick(pending);
        pending := pending - {id};
        if rows[id].customerId == customerId && IsLapsed(rows[id], now) {
          found := found + [rows[id]];
        }
      }
    }
  }
}
