/** ReservationService: the reservation / capacity ledger. Every operation runs its
    checks first, in a fixed order, and writes nothing when one fails (the whole
    operation is one transaction). After a write it recounts the reserved places of
    the slots it touched. */
module ReservationLedger {
  import opened Common
  import opened Entities
  import opened Repositories

  /** The body of a create or update request; the @NotNull fields are plain values. */
  datatype ReservationRequest = ReservationRequest(
    customerId: Id,
    deliveryAddressId: Id,
    deliverySlotId: Id,
    reservationDate: LocalDate,
    reservationTime: LocalTime,
    status: Option<ReservationStatus>)

  /** The tables the checks read. */
  datatype Tables = Tables(
    customers: map<Id, Customer>,
    addresses: map<Id, DeliveryAddress>,
    slots: map<Id, DeliverySlot>,
    templates: map<Id, TimeSlotTemplate>,
    zones: map<Id, ZoneCoverage>,
    reservations: map<Id, Reservation>)

  const ReservationNotFound := NotFound("reservation")
  const CustomerNotFound := NotFound("customer")
  const AddressNotFound := NotFound("delivery address")
  const SlotNotFound := NotFound("delivery slot")
  const TemplateNotFound := NotFound("time slot template")
  const ZoneNotFound := NotFound("zone coverage")
  const AddressNotOwned := InvalidArgument("address does not belong to the customer")
  const AddressWithoutZone := InvalidArgument("address has no zone coverage")
  const ZoneNotBoundToSlot := InvalidArgument("address zone is not bound to the delivery slot")
  const DateMismatch := InvalidArgument("reservation date differs from the slot date")
  const TimeOutsideWindow := InvalidArgument("reservation time is outside the template window")
  const NoCapacity := Conflict("no capacity left in the delivery slot")

  /** The number of CONFIRMED reservations of a slot. */
  function ConfirmedCount(rows: map<Id, Reservation>, slotId: Id): nat {
    CountByDeliverySlotIdAndStatus(rows, slotId, Confirmed)
  }

  /** A missing status means CONFIRMED. */
  function StatusOrDefault(status: Option<ReservationStatus>): (s: ReservationStatus)
    ensures status.Some? ==> s == status.value
    ensures status.None? ==> s == Confirmed
  {
    if status.None? then Confirmed else status.value
  }

  /** `buildReservedAt`: the request's date and time, at offset UTC. */
  function BuildReservedAt(request: ReservationRequest): (at: OffsetDateTime)
    ensures at.ToLocalDate() == request.reservationDate
    ensures at.ToLocalTime() == request.reservationTime
    ensures at.ToInstant() == request.reservationDate * NanosPerDay + request.reservationTime
  {
    OffsetDateTime(request.reservationDate, request.reservationTime, 0)
  }

  // ---------------------------------------------------------------------------
  // The checks

  function ValidateAddressBelongsToCustomer(address: DeliveryAddress, customerId: Id): (r: Outcome)
    ensures r.Pass? <==> address.customerId == customerId
    ensures r.Fail? ==> r.error == AddressNotOwned
  {
    Need(customerId == address.customerId, AddressNotOwned)
  }

  /** The address's zone is bound to the slot: it has a zone, the zone exists, and
      the zone's slot is this one. */
  predicate ZoneBound(zones: map<Id, ZoneCoverage>, address: DeliveryAddress, slotId: Id) {
    address.zoneCoverageId.Some?
    && address.zoneCoverageId.value in zones
    && zones[address.zoneCoverageId.value].deliverySlotId == Some(slotId)
  }

  function ValidateAddressWithinDeliverySlot(zones: map<Id, ZoneCoverage>, address: DeliveryAddress, slotId: Id)
    : (r: Outcome)
    ensures r.Pass? <==> ZoneBound(zones, address, slotId)
    ensures address.zoneCoverageId.None? ==> r == Fail(AddressWithoutZone)
    ensures address.zoneCoverageId.Some? && address.zoneCoverageId.value !in zones ==> r == Fail(ZoneNotFound)
    ensures address.zoneCoverageId.Some? && address.zoneCoverageId.value in zones && !ZoneBound(zones, address, slotId)
            ==> r == Fail(ZoneNotBoundToSlot)
  {
    var zoneId := address.zoneCoverageId;
    :- Need(zoneId.Some?, AddressWithoutZone);
    :- Need(zoneId.value in zones, ZoneNotFound);
    var zone := zones[zoneId.value];
    Need(zone.deliverySlotId.Some? && zone.deliverySlotId.value == slotId, ZoneNotBoundToSlot)
  }

  /** The reservation falls on the slot's day, within the template's window, both ends included. */
  predicate WithinWindow(reservedAt: OffsetDateTime, slot: DeliverySlot, template: TimeSlotTemplate) {
    reservedAt.ToLocalDate() == slot.deliveryDate
    && template.startTime <= reservedAt.ToLocalTime() <= template.endTime
  }

  function ValidateReservationDateTime(reservedAt: OffsetDateTime, slot: DeliverySlot, template: TimeSlotTemplate)
    : (r: Outcome)
    ensures r.Pass? <==> WithinWindow(reservedAt, slot, template)
    ensures reservedAt.ToLocalDate() != slot.deliveryDate ==> r == Fail(DateMismatch)
    ensures r.Fail? ==> r.error.InvalidArgument?
  {
    var time := reservedAt.ToLocalTime();
    :- Need(slot.deliveryDate == reservedAt.ToLocalDate(), DateMismatch);
    Need(!(time < template.startTime) && !(time > template.endTime), TimeOutsideWindow)
  }

  /** The confirmed reservations of the slot that the check counts: all of them on
      create, all but the reservation being updated on update. */
  function CountedConfirmed(rows: map<Id, Reservation>, slotId: Id, excluded: Option<Id>): nat {
    if excluded.None? then CountByDeliverySlotIdAndStatus(rows, slotId, Confirmed)
    else CountByDeliverySlotIdAndStatusAndIdNot(rows, slotId, Confirmed, excluded.value)
  }

  /** Only a CONFIRMED reservation takes a place; one more must still fit. */
  predicate HasRoom(rows: map<Id, Reservation>, slot: DeliverySlot, status: ReservationStatus, excluded: Option<Id>) {
    status == Confirmed ==> CountedConfirmed(rows, slot.id, excluded) + 1 <= slot.maxCapacity
  }

  function ValidateCapacity(rows: map<Id, Reservation>, slot: DeliverySlot, status: ReservationStatus, excluded: Option<Id>)
    : (r: Outcome)
    ensures r.Pass? <==> HasRoom(rows, slot, status, excluded)
    ensures status != Confirmed ==> r.Pass?
    ensures r.Fail? ==> r == Fail(NoCapacity)
  {
    if status != Confirmed then Pass
    else
      var confirmed := CountedConfirmed(rows, slot.id, excluded);
      Need(!(confirmed + 1 > slot.maxCapacity), NoCapacity)
  }

  // ---------------------------------------------------------------------------
  // The pipelines

  /** The customer exists and owns the address, which exists. */
  predicate AddressChecksPass(t: Tables, request: ReservationRequest) {
    request.customerId in t.customers
    && request.deliveryAddressId in t.addresses
    && t.addresses[request.deliveryAddressId].customerId == request.customerId
  }

  /** The address checks pass and the slot and its template exist. */
  predicate LookupsPass(t: Tables, request: ReservationRequest) {
    AddressChecksPass(t, request)
    && request.deliverySlotId in t.slots
    && t.slots[request.deliverySlotId].timeSlotTemplateId in t.templates
  }

  /** When every lookup succeeded, the zone binding is checked first, then the date and
      time, then the capacity, and the first of them to fail decides the outcome. */
  predicate LaterChecksInOrder(t: Tables, request: ReservationRequest, excluded: Option<Id>, r: Outcome)
    requires LookupsPass(t, request)
  {
    var slot := t.slots[request.deliverySlotId];
    var zoneCheck := ValidateAddressWithinDeliverySlot(t.zones, t.addresses[request.deliveryAddressId], slot.id);
    var timeCheck := ValidateReservationDateTime(BuildReservedAt(request), slot, t.templates[slot.timeSlotTemplateId]);
    && (zoneCheck.Fail? ==> r == zoneCheck)
    && (zoneCheck.Pass? && timeCheck.Fail? ==> r == timeCheck)
    && (zoneCheck.Pass? && timeCheck.Pass? ==>
          r == ValidateCapacity(t.reservations, slot, StatusOrDefault(request.status), excluded))
  }

  /** Every check of `create` holds. */
  predicate Admissible(t: Tables, request: ReservationRequest, excluded: Option<Id>) {
    request.customerId in t.customers
    && request.deliveryAddressId in t.addresses
    && t.addresses[request.deliveryAddressId].customerId == request.customerId
    && request.deliverySlotId in t.slots
    && t.slots[request.deliverySlotId].timeSlotTemplateId in t.templates
    && ZoneBound(t.zones, t.addresses[request.deliveryAddressId], t.slots[request.deliverySlotId].id)
    && WithinWindow(BuildReservedAt(request), t.slots[request.deliverySlotId],
                    t.templates[t.slots[request.deliverySlotId].timeSlotTemplateId])
    && HasRoom(t.reservations, t.slots[request.deliverySlotId], StatusOrDefault(request.status), excluded)
  }

  /** The checks of `create`, in the order it runs them; the first that fails decides the error. */
  function CheckCreate(t: Tables, request: ReservationRequest): (r: Outcome)
    ensures r.Pass? <==> Admissible(t, request, None)
    ensures request.customerId !in t.customers ==> r == Fail(CustomerNotFound)
    ensures request.customerId in t.customers && request.deliveryAddressId !in t.addresses
            ==> r == Fail(AddressNotFound)
    ensures request.customerId in t.customers && request.deliveryAddressId in t.addresses
            && t.addresses[request.deliveryAddressId].customerId != request.customerId
            ==> r == Fail(AddressNotOwned)
    ensures request.customerId in t.customers && request.deliveryAddressId in t.addresses
            && t.addresses[request.deliveryAddressId].customerId == request.customerId
            && request.deliverySlotId !in t.slots
            ==> r == Fail(SlotNotFound)
    ensures request.customerId in t.customers && request.deliveryAddressId in t.addresses
            && t.addresses[request.deliveryAddressId].customerId == request.customerId
            && request.deliverySlotId in t.slots
            && t.slots[request.deliverySlotId].timeSlotTemplateId !in t.templates
            ==> r == Fail(TemplateNotFound)
    ensures LookupsPass(t, request) ==> LaterChecksInOrder(t, request, None, r)
    ensures r == Fail(NoCapacity) ==> StatusOrDefault(request.status) == Confirmed
  {
    var status := StatusOrDefault(request.status);
    :- Need(request.customerId in t.customers, CustomerNotFound);
    :- Need(request.deliveryAddressId in t.addresses, AddressNotFound);
    var address := t.addresses[request.deliveryAddressId];
    :- ValidateAddressBelongsToCustomer(address, request.customerId);
    :- Need(request.deliverySlotId in t.slots, SlotNotFound);
    var slot := t.slots[request.deliverySlotId];
    :- Need(slot.timeSlotTemplateId in t.templates, TemplateNotFound);
    var template := t.templates[slot.timeSlotTemplateId];
    :- ValidateAddressWithinDeliverySlot(t.zones, address, slot.id);
    :- ValidateReservationDateTime(BuildReservedAt(request), slot, template);
    ValidateCapacity(t.reservations, slot, status, None)
  }

  /** The checks of `update`: the reservation must exist, and so must its previous slot
      when the request moves it; the capacity check leaves the reservation itself out. */
  function CheckUpdate(t: Tables, id: Id, request: ReservationRequest): (r: Outcome)
    ensures r.Pass? <==>
      id in t.reservations
      && (request.deliverySlotId in t.slots && t.reservations[id].deliverySlotId != t.slots[request.deliverySlotId].id
          ==> t.reservations[id].deliverySlotId in t.slots)
      && Admissible(t, request, Some(id))
    ensures id !in t.reservations ==> r == Fail(ReservationNotFound)
    ensures id in t.reservations && request.customerId !in t.customers ==> r == Fail(CustomerNotFound)
    ensures id in t.reservations && request.customerId in t.customers && request.deliveryAddressId !in t.addresses
            ==> r == Fail(AddressNotFound)
    ensures id in t.reservations && request.customerId in t.customers && request.deliveryAddressId in t.addresses
            && t.addresses[request.deliveryAddressId].customerId != request.customerId
            ==> r == Fail(AddressNotOwned)
    ensures id in t.reservations && AddressChecksPass(t, request) && request.deliverySlotId !in t.slots
            ==> r == Fail(SlotNotFound)
    ensures id in t.reservations && AddressChecksPass(t, request) && request.deliverySlotId in t.slots
            && t.reservations[id].deliverySlotId != t.slots[request.deliverySlotId].id
            && t.reservations[id].deliverySlotId !in t.slots
            ==> r == Fail(SlotNotFound)
    ensures id in t.reservations && AddressChecksPass(t, request) && request.deliverySlotId in t.slots
            && (t.reservations[id].deliverySlotId == t.slots[request.deliverySlotId].id
                || t.reservations[id].deliverySlotId in t.slots)
            && t.slots[request.deliverySlotId].timeSlotTemplateId !in t.templates
            ==> r == Fail(TemplateNotFound)
    ensures id in t.reservations && LookupsPass(t, request)
            && (t.reservations[id].deliverySlotId == t.slots[request.deliverySlotId].id
                || t.reservations[id].deliverySlotId in t.slots)
            ==> LaterChecksInOrder(t, request, Some(id), r)
  {
    var status := StatusOrDefault(request.status);
    :- Need(id in t.reservations, ReservationNotFound);
    var previousSlotId := t.reservations[id].deliverySlotId;
    :- Need(request.customerId in t.customers, CustomerNotFound);
    :- Need(request.deliveryAddressId in t.addresses, AddressNotFound);
    var address := t.addresses[request.deliveryAddressId];
    :- ValidateAddressBelongsToCustomer(address, request.customerId);
    :- Need(request.deliverySlotId in t.slots, SlotNotFound);
    var slot := t.slots[request.deliverySlotId];
    :- Need(previousSlotId == slot.id || previousSlotId in t.slots, SlotNotFound);
    :- Need(slot.timeSlotTemplateId in t.templates, TemplateNotFound);
    var template := t.templates[slot.timeSlotTemplateId];
    :- ValidateAddressWithinDeliverySlot(t.zones, address, slot.id);
    :- ValidateReservationDateTime(BuildReservedAt(request), slot, template);
    ValidateCapacity(t.reservations, slot, status, Some(id))
  }

  // ---------------------------------------------------------------------------
  // The write

  /** `applyChanges`: copies the request onto the reservation. The cancellation time is
      stamped with `now` when the reservation becomes CANCELLED without one, kept when
      it already has one, and cleared for any other status. */
  function ApplyChanges(entity: Reservation, request: ReservationRequest, reservedAt: OffsetDateTime,
                        status: ReservationStatus, now: Instant): (r: Reservation)
    ensures r.id == entity.id && r.version == entity.version
    ensures r.customerId == request.customerId && r.deliveryAddressId == request.deliveryAddressId
    ensures r.deliverySlotId == request.deliverySlotId
    ensures r.reservedAt == Some(reservedAt) && r.status == status
    ensures r.cancelledAt.Some? <==> status == Cancelled
    ensures status == Cancelled && entity.cancelledAt.Some? ==> r.cancelledAt == entity.cancelledAt
    ensures status == Cancelled && entity.cancelledAt.None? ==> r.cancelledAt == Some(now)
  {
    var cancelledAt :=
      if status == Cancelled then (if entity.cancelledAt.None? then Some(now) else entity.cancelledAt)
      else None;
    entity.(customerId := request.customerId,
            deliveryAddressId := request.deliveryAddressId,
            deliverySlotId := request.deliverySlotId,
            reservedAt := Some(reservedAt),
            status := status,
            cancelledAt := cancelledAt)
  }

  /** Sending the same request again leaves the reservation as it is: in particular a
      cancellation keeps the time it was first stamped with. */
  lemma ApplyChangesIdempotent(entity: Reservation, request: ReservationRequest, reservedAt: OffsetDateTime,
                               status: ReservationStatus, first: Instant, later: Instant)
    ensures ApplyChanges(ApplyChanges(entity, request, reservedAt, status, first), request, reservedAt, status, later)
         == ApplyChanges(entity, request, reservedAt, status, first)
  {
  }

  /** A `new Reservation()`: no cancellation time, and the version Hibernate seeds (0). */
  const Blank := Reservation(0, 0, 0, 0, Confirmed, None, None, 0)

  /** The slot table after `syncReservedCount(slotId)`. */
  function Recount(slots: map<Id, DeliverySlot>, reservations: map<Id, Reservation>, slotId: Id)
    : (r: map<Id, DeliverySlot>)
    requires slotId in slots
    ensures r.Keys == slots.Keys
    ensures r[slotId].reservedCount == ConfirmedCount(reservations, slotId)
    ensures r[slotId] == slots[slotId].(reservedCount := r[slotId].reservedCount)
    ensures forall other | other in slots && other != slotId :: r[other] == slots[other]
  {
    slots[slotId := slots[slotId].(reservedCount := ConfirmedCount(reservations, slotId))]
  }

  // ---------------------------------------------------------------------------
  // Capacity

  /** Saving a reservation that passed the capacity check keeps its slot within capacity. */
  lemma SaveKeepsCapacity(rows: map<Id, Reservation>, r: Reservation, slot: DeliverySlot, excluded: Option<Id>)
    requires r.deliverySlotId == slot.id
    requires excluded == Some(r.id) || (excluded.None? && r.id !in rows)
    requires HasRoom(rows, slot, r.status, excluded)
    requires ConfirmedCount(rows, slot.id) <= slot.maxCapacity
    ensures ConfirmedCount(rows[r.id := r], slot.id) <= slot.maxCapacity
  {
    CountAfterSave(rows, r, slot.id, Confirmed);
  }

  /** Saving a reservation into some other slot never adds to this slot's count. */
  lemma SaveDoesNotRaiseOtherSlot(rows: map<Id, Reservation>, r: Reservation, slotId: Id)
    requires r.deliverySlotId != slotId
    ensures ConfirmedCount(rows[r.id := r], slotId) <= ConfirmedCount(rows, slotId)
  {
    CountAfterSave(rows, r, slotId, Confirmed);
  }

  /** Deleting a reservation never adds to a slot's count. */
  lemma DeleteDoesNotRaiseCount(rows: map<Id, Reservation>, id: Id, slotId: Id)
    ensures ConfirmedCount(rows - {id}, slotId) <= ConfirmedCount(rows, slotId)
  {
    CountAfterDelete(rows, id, slotId, Confirmed);
  }

  // ---------------------------------------------------------------------------
  // The service

  class ReservationService {
    const customers: CustomerRepository
    const addresses: DeliveryAddressRepository
    const slots: DeliverySlotRepository
    const templates: TimeSlotTemplateRepository
    const zones: ZoneCoverageRepository
    const reservations: ReservationRepository

    ghost predicate Valid()
      reads this, customers, addresses, slots, templates, zones, reservations
    {
      customers.Valid() && addresses.Valid() && slots.Valid() && templates.Valid()
      && zones.Valid() && reservations.Valid()
    }

    constructor (customers: CustomerRepository, addresses: DeliveryAddressRepository,
                 slots: DeliverySlotRepository, templates: TimeSlotTemplateRepository,
                 zones: ZoneCoverageRepository, reservations: ReservationRepository)
      ensures this.customers == customers && this.addresses == addresses && this.slots == slots
      ensures this.templates == templates && this.zones == zones && this.reservations == reservations
    {
      this.customers := customers;
      this.addresses := addresses;
      this.slots := slots;
      this.templates := templates;
      this.zones := zones;
      this.reservations := reservations;
    }

    function Snapshot(): Tables
      reads this, customers, addresses, slots, templates, zones, reservations
    {
      Tables(customers.rows, addresses.rows, slots.rows, templates.rows, zones.rows, reservations.rows)
    }

    /** `findById`. */
    method FindById(id: Id) returns (result: Result<Reservation>)
      requires Valid()
      ensures id !in reservations.rows ==> result == Failure(ReservationNotFound)
      ensures id in reservations.rows ==> result == Success(reservations.rows[id])
    {
      if id in reservations.rows {
        result := Success(reservations.rows[id]);
      } else {
        result := Failure(ReservationNotFound);
      }
    }

    /** `findByCustomerId`: the customer's reservations, newest first. */
    method FindByCustomerId(customerId: Id) returns (result: Result<seq<Reservation>>)
      requires Valid()
      ensures customerId !in customers.rows ==> result == Failure(CustomerNotFound)
      ensures customerId in customers.rows ==> result.Success? && IsHistory(reservations.rows, customerId, result.value)
    {
      if customerId !in customers.rows {
        return Failure(CustomerNotFound);
      }
      var found := reservations.FindByCustomerIdOrderByReservedAtDescIdDesc(customerId);
      result := Success(found);
    }

    /** `syncReservedCount`: sets the slot's reserved count to its number of CONFIRMED reservations. */
    method SyncReservedCount(slotId: Id) returns (r: Outcome)
      requires Valid()
      modifies slots
      ensures Valid()
      ensures slotId !in old(slots.rows) ==> r == Fail(SlotNotFound) && slots.rows == old(slots.rows)
      ensures slotId in old(slots.rows) ==> r.Pass? && slots.rows == Recount(old(slots.rows), reservations.rows, slotId)
    {
      var found := FindByIdForUpdate(slots.rows, slotId);
      if found.None? {
        return Fail(SlotNotFound);
      }
      var confirmed := CountByDeliverySlotIdAndStatus(reservations.rows, slotId, Confirmed);
      slots.Update(found.value.(reservedCount := confirmed));
      r := Pass;
    }

    /** `create`. */
    method Create(request: ReservationRequest, now: Instant) returns (result: Result<Reservation>)
      requires Valid()
      modifies reservations, slots
      ensures Valid()
      ensures result.Failure? <==> CheckCreate(old(Snapshot()), request).Fail?
      ensures result.Failure? ==> result.error == CheckCreate(old(Snapshot()), request).error
                                  && reservations.rows == old(reservations.rows) && slots.rows == old(slots.rows)
      ensures result.Success? ==>
        var saved := result.value;
        && saved.id !in old(reservations.rows)
        && saved == ApplyChanges(Blank, request, BuildReservedAt(request), StatusOrDefault(request.status), now)
                      .(id := saved.id)
        && reservations.rows == old(reservations.rows)[saved.id := saved]
        && slots.rows == Recount(old(slots.rows), reservations.rows, request.deliverySlotId)
        && slots.rows[request.deliverySlotId].reservedCount == ConfirmedCount(reservations.rows, request.deliverySlotId)
      ensures result.Success? ==>
        forall slotId | slotId in old(slots.rows) && ConfirmedCount(old(reservations.rows), slotId) <= old(slots.rows)[slotId].maxCapacity ::
          ConfirmedCount(reservations.rows, slotId) <= slots.rows[slotId].maxCapacity
    {
      var check := CheckCreate(Snapshot(), request);
      if check.Fail? {
        return Failure(check.error);
      }
      var status := StatusOrDefault(request.status);
      var entity := ApplyChanges(Blank, request, BuildReservedAt(request), status, now);
      var before := reservations.rows;
      var saved := reservations.Insert(entity);
      var synced := SyncReservedCount(request.deliverySlotId);
      forall slotId | slotId in old(slots.rows) && ConfirmedCount(before, slotId) <= old(slots.rows)[slotId].maxCapacity
        ensures ConfirmedCount(reservations.rows, slotId) <= slots.rows[slotId].maxCapacity
      {
        if slotId == request.deliverySlotId {
          SaveKeepsCapacity(before, saved, old(slots.rows)[slotId], None);
        } else {
          SaveDoesNotRaiseOtherSlot(before, saved, slotId);
        }
      }
      result := Success(saved);
    }

    /** `update`. */
    method Update(id: Id, request: ReservationRequest, now: Instant) returns (result: Result<Reservation>)
      requires Valid()
      modifies reservations, slots
      ensures Valid()
      ensures result.Failure? <==> CheckUpdate(old(Snapshot()), id, request).Fail?
      ensures result.Failure? ==> result.error == CheckUpdate(old(Snapshot()), id, request).error
                                  && reservations.rows == old(reservations.rows) && slots.rows == old(slots.rows)
      ensures result.Success? ==>
        var previous := old(reservations.rows)[id];
        var saved := result.value;
        && saved == ApplyChanges(previous, request, BuildReservedAt(request), StatusOrDefault(request.status), now)
        && reservations.rows == old(reservations.rows)[id := saved]
        && previous.deliverySlotId in old(slots.rows)
        && slots.rows == (if previous.deliverySlotId == request.deliverySlotId
                          then Recount(old(slots.rows), reservations.rows, request.deliverySlotId)
                          else Recount(Recount(old(slots.rows), reservations.rows, request.deliverySlotId),
                                       reservations.rows, previous.deliverySlotId))
        && slots.rows[request.deliverySlotId].reservedCount == ConfirmedCount(reservations.rows, request.deliverySlotId)
        && slots.rows[previous.deliverySlotId].reservedCount == ConfirmedCount(reservations.rows, previous.deliverySlotId)
      ensures result.Success? ==>
        forall slotId | slotId in old(slots.rows) && ConfirmedCount(old(reservations.rows), slotId) <= old(slots.rows)[slotId].maxCapacity ::
          ConfirmedCount(reservations.rows, slotId) <= slots.rows[slotId].maxCapacity
    {
      var check := CheckUpdate(Snapshot(), id, request);
      if check.Fail? {
        return Failure(check.error);
      }
      var previous := reservations.rows[id];
      var status := StatusOrDefault(request.status);
      var entity := ApplyChanges(previous, request, BuildReservedAt(request), status, now);
      var before := reservations.rows;
      reservations.Update(entity);
      var synced := SyncReservedCount(request.deliverySlotId);
      if previous.deliverySlotId != request.deliverySlotId {
        synced := SyncReservedCount(previous.deliverySlotId);
      }
      forall slotId | slotId in old(slots.rows) && ConfirmedCount(before, slotId) <= old(slots.rows)[slotId].maxCapacity
        ensures ConfirmedCount(reservations.rows, slotId) <= slots.rows[slotId].maxCapacity
      {
        if slotId == request.deliverySlotId {
          SaveKeepsCapacity(before, entity, old(slots.rows)[slotId], Some(id));
        } else {
          SaveDoesNotRaiseOtherSlot(before, entity, slotId);
        }
      }
      result := Success(entity);
    }

    /** `delete`. */
    method Delete(id: Id) returns (r: Outcome)
      requires Valid()
      modifies reservations, slots
      ensures Valid()
      ensures id !in old(reservations.rows) ==> r == Fail(ReservationNotFound)
      ensures id in old(reservations.rows) && old(reservations.rows)[id].deliverySlotId !in old(slots.rows)
              ==> r == Fail(SlotNotFound)
      ensures id in old(reservations.rows) && old(reservations.rows)[id].deliverySlotId in old(slots.rows)
              ==> r.Pass?
      ensures r.Fail? ==> reservations.rows == old(reservations.rows) && slots.rows == old(slots.rows)
      ensures r.Pass? ==>
        var slotId := old(reservations.rows)[id].deliverySlotId;
        && id in old(reservations.rows) && slotId in old(slots.rows)
        && reservations.rows == old(reservations.rows) - {id}
        && slots.rows == Recount(old(slots.rows), reservations.rows, slotId)
        && slots.rows[slotId].reservedCount == ConfirmedCount(reservations.rows, slotId)
      ensures r.Pass? ==>
        forall slotId | slotId in old(slots.rows) && ConfirmedCount(old(reservations.rows), slotId) <= old(slots.rows)[slotId].maxCapacity ::
          ConfirmedCount(reservations.rows, slotId) <= slots.rows[slotId].maxCapacity
    {
      if id !in reservations.rows {
        return Fail(ReservationNotFound);
      }
      var entity := reservations.rows[id];
      if FindByIdForUpdate(slots.rows, entity.deliverySlotId).None? {
        return Fail(SlotNotFound);
      }
      var before := reservations.rows;
      reservations.Delete(id);
      r := SyncReservedCount(entity.deliverySlotId);
      forall slotId | slotId in old(slots.rows)
        ensures ConfirmedCount(reservations.rows, slotId) <= ConfirmedCount(before, slotId)
      {
        DeleteDoesNotRaiseCount(before, id, slotId);
      }
    }
  }

  // ---------------------------------------------------------------------------
  // ReservationResponse

  datatype ReservationResponse = ReservationResponse(
    id: Id,
    customerId: Id,
    deliveryAddressId: Id,
    deliverySlotId: Id,
    status: ReservationStatus,
    reservationDate: Option<LocalDate>,
    reservationTime: Option<LocalTime>,
    reservedAt: Option<OffsetDateTime>,
    cancelledAt: Option<Instant>,
    version: int)

  /** `ReservationResponse.fromEntity`: the date and the time are the parts of
      `reservedAt`, and are absent when it is. */
  function ReservationResponseFromEntity(entity: Reservation): (r: ReservationResponse)
    ensures r.id == entity.id && r.customerId == entity.customerId
    ensures r.deliveryAddressId == entity.deliveryAddressId && r.deliverySlotId == entity.deliverySlotId
    ensures r.status == entity.status && r.reservedAt == entity.reservedAt
    ensures r.cancelledAt == entity.cancelledAt && r.version == entity.version
    ensures entity.reservedAt.None? ==> r.reservationDate.None? && r.reservationTime.None?
    ensures entity.reservedAt.Some? ==>
            r.reservationDate == Some(entity.reservedAt.value.ToLocalDate())
            && r.reservationTime == Some(entity.reservedAt.value.ToLocalTime())
  {
    ReservationResponse(entity.id, entity.customerId, entity.deliveryAddressId, entity.deliverySlotId, entity.status,
                        if entity.reservedAt.Some? then Some(entity.reservedAt.value.ToLocalDate()) else None,
                        if entity.reservedAt.Some? then Some(entity.reservedAt.value.ToLocalTime()) else None,
                        entity.reservedAt, entity.cancelledAt, entity.version)
  }

  /** The response to a saved request gives back the date and the time the request asked for. */
  lemma ResponseEchoesRequestedDateTime(entity: Reservation, request: ReservationRequest,
                                        status: ReservationStatus, now: Instant)
    ensures var r := ReservationResponseFromEntity(ApplyChanges(entity, request, BuildReservedAt(request), status, now));
            r.reservationDate == Some(request.reservationDate) && r.reservationTime == Some(request.reservationTime)
  {
  }

  /** Because the offset is UTC, the stored instant alone determines the requested date
      and time: whole days since the epoch give the date, the rest gives the time. */
  lemma {:induction false} ReservedAtInstantRoundTrip(request: ReservationRequest)
    ensures BuildReservedAt(request).ToInstant() / NanosPerDay == request.reservationDate
    ensures BuildReservedAt(request).ToInstant() % NanosPerDay == request.reservationTime
  {
    var instant := BuildReservedAt(request).ToInstant();
    assert instant == request.reservationDate * NanosPerDay + request.reservationTime;
    DivModUnique(instant, NanosPerDay, request.reservationDate, request.reservationTime);
  }

  /** Euclidean division has a single quotient and remainder. */
  lemma DivModUnique(n: int, d: int, q: int, r: int)
    requires d > 0 && 0 <= r < d && n == q * d + r
    ensures n / d == q && n % d == r
  {
    var k := n / d - q;
    assert k * d == r - n % d;
    MultipleOfDivisor(k, d);
  }

  /** A non-zero multiple of d is at least d away from zero. */
  lemma MultipleOfDivisor(k: int, d: int)
    requires d > 0
    ensures k >= 1 ==> k * d >= d
    ensures k <= -1 ==> k * d <= -d
  {
    if k >= 1 {
      assert k * d == (k - 1) * d + d;
    } else if k <= -1 {
      assert k * d == (k + 1) * d - d;
    }
  }
}
