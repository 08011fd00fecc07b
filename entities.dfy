/** The persisted entities (the JPA classes under model/), as immutable records.
    A service that "changes an entity in place" builds the updated record and saves it. */
module Entities {
  import opened Common
  import opened Geometry

  datatype CustomerType = Admin | Buyer

  datatype Customer = Customer(
    id: Id,
    fullName: Option<string>,
    email: string,
    phone: Option<string>,
    customerType: CustomerType)

  datatype DeliveryAddress = DeliveryAddress(
    id: Id,
    customerId: Id,
    zoneCoverageId: Option<Id>,
    comunaId: Option<Id>,
    street: Option<string>,
    locality: Option<string>,
    commune: Option<string>,
    region: Option<string>,
    postalCode: Option<string>,
    location: Option<Coordinate>,
    isDefault: bool,
    createdAt: Instant)

  datatype ZoneCoverage = ZoneCoverage(
    id: Id,
    name: Option<string>,
    comunaId: Option<Id>,
    commune: Option<string>,
    region: Option<string>,
    locality: Option<string>,
    postalCode: Option<string>,
    deliverySlotId: Option<Id>,
    maxCapacity: int,
    boundary: Option<PolygonShape>,
    location: Option<Coordinate>,
    isActive: bool)

  datatype DeliverySlot = DeliverySlot(
    id: Id,
    timeSlotTemplateId: Id,
    deliveryDate: LocalDate,
    deliveryCost: real,
    maxCapacity: int,
    reservedCount: int,
    isActive: bool)

  datatype TimeSlotTemplate = TimeSlotTemplate(
    id: Id,
    startTime: LocalTime,
    endTime: LocalTime,
    isActive: bool)

  /** The `app.reservation_status` enum; the front end also sends EXPIRED. */
  datatype ReservationStatus = Confirmed | Cancelled | Expired

  datatype Reservation = Reservation(
    id: Id,
    customerId: Id,
    deliveryAddressId: Id,
    deliverySlotId: Id,
    status: ReservationStatus,
    reservedAt: Option<OffsetDateTime>,
    cancelledAt: Option<Instant>,
    version: int)

  datatype ActiveSession = ActiveSession(
    id: Id,
    customerId: Id,
    startedAt: Instant,
    expiresAt: Instant,
    endedAt: Option<Instant>)
}
