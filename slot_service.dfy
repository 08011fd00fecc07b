/** DeliverySlotService: the administrator's table of delivery slots. A slot is one
    delivery date in one time-slot template; no two slots share that pair. Capacity
    and reserved count default to 0 and the reserved count may not exceed the capacity. */
module SlotTable {
  import opened Common
  import opened Entities
  import opened Repositories

  /** The body of a create or update request; the optional fields are the ones the
      request may leave null. */
  datatype DeliverySlotRequest = DeliverySlotRequest(
    timeSlotTemplateId: Id,
    deliveryDate: LocalDate,
    deliveryCost: real,
    maxCapacity: Option<int>,
    reservedCount: Option<int>,
    isActive: Option<bool>)

  /** The field constraints the request declares: a cost of at least 0.00 and, when
      given, a capacity and a reserved count of at least 0. */
  predicate WithinBounds(request: DeliverySlotRequest) {
    && request.deliveryCost >= 0.0
    && (request.maxCapacity.Some? ==> request.maxCapacity.value >= 0)
    && (request.reservedCount.Some? ==> request.reservedCount.value >= 0)
  }

  /** `isReservedCountValid`: only a request giving both numbers can fail it. */
  function IsReservedCountValid(request: DeliverySlotRequest): (valid: bool)
    ensures request.maxCapacity.None? || request.reservedCount.None? ==> valid
    ensures request.maxCapacity.Some? && request.reservedCount.Some? ==>
            (valid <==> request.reservedCount.value <= request.maxCapacity.value)
  {
    request.maxCapacity.None? || request.reservedCount.None?
    || request.reservedCount.value <= request.maxCapacity.value
  }

  /** A request that passes the declared validation, as the controller demands of it. */
  predicate ValidRequest(request: DeliverySlotRequest) {
    WithinBounds(request) && IsReservedCountValid(request)
  }

  const TemplateNotFound := NotFound("time slot template")
  const SlotNotFound := NotFound("delivery slot")
  const DuplicateSlot := Conflict("a delivery slot already exists for that date and template")
  const ReservedOverCapacity := Conflict("reserved count exceeds maximum capacity")

  function OrZero(n: Option<int>): int {
    if n.Some? then n.value else 0
  }

  /** A slot whose numbers make sense: nothing negative, no more reserved than offered. */
  predicate SlotBounds(slot: DeliverySlot) {
    slot.deliveryCost >= 0.0 && 0 <= slot.reservedCount <= slot.maxCapacity
  }

  /** `applyChanges`: null numbers read as 0, a null isActive as true; a reserved count
      over the capacity is refused before any field is set. */
  function ApplySlotChanges(entity: DeliverySlot, request: DeliverySlotRequest): (r: Result<DeliverySlot>)
    ensures r.Failure? <==> OrZero(request.reservedCount) > OrZero(request.maxCapacity)
    ensures r.Failure? ==> r.error == ReservedOverCapacity
    ensures r.Success? ==>
      && r.value.id == entity.id
      && r.value.timeSlotTemplateId == request.timeSlotTemplateId
      && r.value.deliveryDate == request.deliveryDate
      && r.value.deliveryCost == request.deliveryCost
      && r.value.maxCapacity == OrZero(request.maxCapacity)
      && r.value.reservedCount == OrZero(request.reservedCount)
      && (r.value.isActive <==> request.isActive != Some(false))
    ensures r.Success? && WithinBounds(request) ==> SlotBounds(r.value)
  {
    var maxCapacity := OrZero(request.maxCapacity);
    var reservedCount := OrZero(request.reservedCount);
    if reservedCount > maxCapacity then Failure(ReservedOverCapacity)
    else Success(entity.(timeSlotTemplateId := request.timeSlotTemplateId,
                         deliveryDate := request.deliveryDate,
                         deliveryCost := request.deliveryCost,
                         maxCapacity := maxCapacity,
                         reservedCount := reservedCount,
                         isActive := if request.isActive.Some? then request.isActive.value else true))
  }

  /** When the request gives both numbers, the declared validator and the service agree. */
  lemma ValidatorMatchesService(entity: DeliverySlot, request: DeliverySlotRequest)
    requires request.maxCapacity.Some? && request.reservedCount.Some?
    ensures IsReservedCountValid(request) <==> ApplySlotChanges(entity, request).Success?
  {
  }

  /** A request that leaves the capacity null passes the validator with any reserved
      count, and is then refused by the service, which reads the capacity as 0. */
  lemma MissingCapacityRefusedByService(entity: DeliverySlot, reserved: int)
    requires reserved > 0
    ensures var request := DeliverySlotRequest(0, 0, 0.0, None, Some(reserved), None);
            ValidRequest(request) && ApplySlotChanges(entity, request) == Failure(ReservedOverCapacity)
  {
  }

  predicate SameDateAndTemplate(a: DeliverySlot, b: DeliverySlot) {
    a.deliveryDate == b.deliveryDate && a.timeSlotTemplateId == b.timeSlotTemplateId
  }

  /** No two slots of the table share a delivery date and a template. */
  ghost predicate UniqueDateAndTemplate(rows: map<Id, DeliverySlot>) {
    forall a, b | a in rows && b in rows && a != b :: !SameDateAndTemplate(rows[a], rows[b])
  }

  /** `validateUniqueDeliverySlot`: the plain query on create, the `IdNot` query on update. */
  function ValidateUniqueDeliverySlot(rows: map<Id, DeliverySlot>, date: LocalDate, templateId: Id,
                                      excluded: Option<Id>): (r: Outcome)
    ensures r.Pass? <==> forall id | id in rows && Some(id) != excluded ::
                           !(rows[id].deliveryDate == date && rows[id].timeSlotTemplateId == templateId)
    ensures r.Fail? ==> r.error == DuplicateSlot
  {
    var exists_ := if excluded.None?
                   then ExistsByDeliveryDateAndTimeSlotTemplateId(rows, date, templateId)
                   else ExistsByDeliveryDateAndTimeSlotTemplateIdAndIdNot(rows, date, templateId, excluded.value);
    if exists_ then Fail(DuplicateSlot) else Pass
  }

  /** Saving a slot whose pair no other slot holds keeps the pairs unique. */
  lemma SaveKeepsUnique(rows: map<Id, DeliverySlot>, slot: DeliverySlot)
    requires UniqueDateAndTemplate(rows)
    requires forall id | id in rows && id != slot.id :: !SameDateAndTemplate(rows[id], slot)
    ensures UniqueDateAndTemplate(rows[slot.id := slot])
  {
  }

  class DeliverySlotService {
    const slots: DeliverySlotRepository
    const templates: TimeSlotTemplateRepository

    ghost predicate Valid()
      reads this, slots, templates
    {
      slots.Valid() && templates.Valid()
    }

    constructor (slots: DeliverySlotRepository, templates: TimeSlotTemplateRepository)
      ensures this.slots == slots && this.templates == templates
    {
      this.slots := slots;
      this.templates := templates;
    }

    /** `create`: the template must exist, the pair must be new, then `applyChanges`. */
    method Create(request: DeliverySlotRequest) returns (result: Result<DeliverySlot>)
      requires Valid() && ValidRequest(request)
      modifies slots
      ensures Valid()
      ensures request.timeSlotTemplateId !in templates.rows ==> result == Failure(TemplateNotFound)
      ensures request.timeSlotTemplateId in templates.rows
              && ExistsByDeliveryDateAndTimeSlotTemplateId(old(slots.rows), request.deliveryDate, request.timeSlotTemplateId)
              ==> result == Failure(DuplicateSlot)
      ensures request.timeSlotTemplateId in templates.rows
              && !ExistsByDeliveryDateAndTimeSlotTemplateId(old(slots.rows), request.deliveryDate, request.timeSlotTemplateId)
              ==> (result.Success? <==> OrZero(request.reservedCount) <= OrZero(request.maxCapacity))
                  && (result.Failure? ==> result == Failure(ReservedOverCapacity))
      ensures result.Failure? ==> slots.rows == old(slots.rows)
      ensures result.Success? ==>
        && result.value.id !in old(slots.rows)
        && slots.rows == old(slots.rows)[result.value.id := result.value]
        && ApplySlotChanges(result.value, request) == Success(result.value)
        && SlotBounds(result.value)
      ensures UniqueDateAndTemplate(old(slots.rows)) ==> UniqueDateAndTemplate(slots.rows)
    {
      if request.timeSlotTemplateId !in templates.rows {
        return Failure(TemplateNotFound);
      }
      var unique := ValidateUniqueDeliverySlot(slots.rows, request.deliveryDate, request.timeSlotTemplateId, None);
      if unique.Fail? {
        return Failure(unique.error);
      }
      var blank := DeliverySlot(0, 0, 0, 0.0, 0, 0, false);
      var applied := ApplySlotChanges(blank, request);
      if applied.Failure? {
        return Failure(applied.error);
      }
      ghost var rows0 := slots.rows;
      var saved := slots.Insert(applied.value);
      if UniqueDateAndTemplate(rows0) {
        SaveKeepsUnique(rows0, saved);
      }
      result := Success(saved);
    }

    /** `update`: the slot must exist, the template must exist, and no other slot may
        hold the pair; the slot's own pair does not count against it. */
    method Update(id: Id, request: DeliverySlotRequest) returns (result: Result<DeliverySlot>)
      requires Valid() && ValidRequest(request)
      modifies slots
      ensures Valid()
      ensures id !in old(slots.rows) ==> result == Failure(SlotNotFound)
      ensures id in old(slots.rows) && request.timeSlotTemplateId !in templates.rows ==> result == Failure(TemplateNotFound)
      ensures id in old(slots.rows) && request.timeSlotTemplateId in templates.rows
              && ExistsByDeliveryDateAndTimeSlotTemplateIdAndIdNot(old(slots.rows), request.deliveryDate,
                                                                   request.timeSlotTemplateId, id)
              ==> result == Failure(DuplicateSlot)
      ensures id in old(slots.rows) && request.timeSlotTemplateId in templates.rows
              && !ExistsByDeliveryDateAndTimeSlotTemplateIdAndIdNot(old(slots.rows), request.deliveryDate,
                                                                    request.timeSlotTemplateId, id)
              ==> (result.Success? <==> OrZero(request.reservedCount) <= OrZero(request.maxCapacity))
                  && (result.Failure? ==> result == Failure(ReservedOverCapacity))
      ensures result.Failure? ==> slots.rows == old(slots.rows)
      ensures result.Success? ==>
        && id in old(slots.rows)
        && result.value.id == id
        && slots.rows == old(slots.rows)[id := result.value]
        && ApplySlotChanges(old(slots.rows)[id], request) == Success(result.value)
        && SlotBounds(result.value)
      ensures UniqueDateAndTemplate(old(slots.rows)) ==> UniqueDateAndTemplate(slots.rows)
    {
      if id !in slots.rows {
        return Failure(SlotNotFound);
      }
      var entity := slots.rows[id];
      if request.timeSlotTemplateId !in templates.rows {
        return Failure(TemplateNotFound);
      }
      var unique := ValidateUniqueDeliverySlot(slots.rows, request.deliveryDate, request.timeSlotTemplateId, Some(id));
      if unique.Fail? {
        return Failure(unique.error);
      }
      var applied := ApplySlotChanges(entity, request);
      if applied.Failure? {
        return Failure(applied.error);
      }
      ghost var rows0 := slots.rows;
      slots.Update(applied.value);
      if UniqueDateAndTemplate(rows0) {
        SaveKeepsUnique(rows0, applied.value);
      }
      result := Success(applied.value);
    }

    /** `delete`. */
    method Delete(id: Id) returns (r: Outcome)
      requires Valid()
      modifies slots
      ensures Valid()
      ensures id !in old(slots.rows) ==> r == Fail(SlotNotFound) && slots.rows == old(slots.rows)
      ensures id in old(slots.rows) ==> r.Pass? && slots.rows == old(slots.rows) - {id}
      ensures UniqueDateAndTemplate(old(slots.rows)) ==> UniqueDateAndTemplate(slots.rows)
    {
      if id !in slots.rows {
        return Fail(SlotNotFound);
      }
      slots.Delete(id);
      r := Pass;
    }
  }
}
