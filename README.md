# Delivery slots: a verified model of the reservation back end and its front-end helpers

The system books home deliveries. An administrator defines time windows
(time slot templates), delivery slots (a template on a date, with a capacity)
and delivery zones (a polygon bound to one slot). Customers register delivery
addresses; an address whose point lies in an active zone gets that zone. A
reservation books a slot for one of the customer's addresses. The back end
checks that the address is the customer's, that its zone is bound to the slot,
that the date and time fall in the slot's window and that a CONFIRMED
reservation still finds a free place. After every write it recounts the
slot's reserved places. A customer holds at most one live login session of
five minutes. Geometries travel as GeoJSON through a hand-written codec. The
web front end converts between map points and GeoJSON rings, works out which
slots a reservation form may offer and checks the time-template form before
it sends it.

The model has one module per part of the system:

- `Common` holds `Result`/`Outcome`, Java's `String.trim`, `toLowerCase`
  and the `normalizeRequired`/`normalizeOptional` helpers that the services
  repeat. It also holds the date and time representation: `LocalDate` is an
  epoch day, `LocalTime` a nano-of-day and `Instant` nanoseconds.
- `Geometry` holds the JTS geometries the codec handles. `Entities` holds the
  JPA entities as datatypes.
- `Repositories` has one class per repository the core uses. Each class holds
  its table as a `map` from id to row. The derived queries are functions or
  methods over that map.
- The services are classes that hold their repositories:
  `ReservationLedger`, `SessionLedger`, `AddressZones`, `SlotTable`,
  `TemplateTable`, `ZoneTable` and `CustomerTable`. Each class has the source's
  create/update/delete methods. Every method states its outcome and the new
  tables. The checks and field copies they share are functions with lemmas.
- `JsonTokens` is the JSON token stream: a generator that appends tokens and
  a parser that reads them.
- `GeoJsonWriter` is `GeometrySerializer`: methods that write to the
  generator, specified by token functions. `GeoJsonReader` is
  `GeometryDeserializer`: loops over the parser, proved equal to recursive
  functions. The two are proved inverse: reading what was written gives the
  geometry back (section 3.1 of RFC 7946 for the object layout).
- `MapPoints`, `ZoneBoundaryEditor`, `ReservationPicker` and `TemplateForm`
  are the front-end helpers of the zone page, the customer page and the
  template page.

## Model

| member | source | states |
|---|---|---|
| Common.Trim | dev-environment/backend/src/main/java/com/app/demo/service/CustomerService.java:77-79 | `String.trim`: the result is a slice of the input; its first and last characters are not spaces or controls, and every character cut off before or after it is |
| Common.TrimIdempotent | dev-environment/backend/src/main/java/com/app/demo/service/CustomerService.java:77-79 | trimming twice equals trimming once |
| Common.ToLower | dev-environment/backend/src/main/java/com/app/demo/service/CustomerService.java:73-75 | `toLowerCase` keeps the length and maps each character: upper-case ASCII letters to lower case, all others unchanged |
| Common.ToLowerIdempotent | dev-environment/backend/src/main/java/com/app/demo/service/CustomerService.java:73-75 | lower-casing twice equals lower-casing once |
| Common.NormalizeRequired | dev-environment/backend/src/main/java/com/app/demo/service/DeliveryAddressService.java:129-131 | null stays null; any other value is trimmed |
| Common.NormalizeOptional | dev-environment/backend/src/main/java/com/app/demo/service/DeliveryAddressService.java:133-139 | null and blank values become null; any other value is trimmed and non-empty |
| Common.NormalizeOptionalIdempotent | dev-environment/backend/src/main/java/com/app/demo/service/DeliveryAddressService.java:133-139 | normalizing twice equals normalizing once |
| Common.NormalizeOptionalBlank | dev-environment/backend/src/main/java/com/app/demo/service/DeliveryAddressService.java:133-139 | a value made only of spaces normalizes to null |
| Repositories.CustomerRepository.Insert | dev-environment/backend/src/main/java/com/app/demo/service/CustomerService.java:43-45 | `save` of a new customer gives it a fresh id and adds exactly that row |
| Repositories.CustomerRepository.Update | dev-environment/backend/src/main/java/com/app/demo/service/CustomerService.java:55-56 | `save` of an existing customer replaces its row and nothing else |
| Repositories.CustomerRepository.Delete | dev-environment/backend/src/main/java/com/app/demo/service/CustomerService.java:63 | `deleteById` removes that row only |
| Repositories.ExistsByEmailIgnoreCaseAndIdNot | dev-environment/backend/src/main/java/com/app/demo/service/CustomerService.java:51 | true only when a customer other than the excluded one has the e-mail ignoring case; implies the plain exists |
| Repositories.CustomerRepository.FindByEmailIgnoreCase | dev-environment/backend/src/main/java/com/app/demo/service/CustomerService.java:33 | finds a stored customer whose e-mail equals the given one ignoring case; finds none exactly when none exists |
| Repositories.DeliveryAddressRepository.Insert | dev-environment/backend/src/main/java/com/app/demo/repository/DeliveryAddressRepository.java:10 | `save` of a new address gives it a fresh id and adds exactly that row |
| Repositories.DeliveryAddressRepository.Update | dev-environment/backend/src/main/java/com/app/demo/repository/DeliveryAddressRepository.java:10 | `save` of an existing address replaces its row and nothing else |
| Repositories.DeliveryAddressRepository.Delete | dev-environment/backend/src/main/java/com/app/demo/repository/DeliveryAddressRepository.java:10 | `deleteById` removes that row only |
| Repositories.ZoneCoverageRepository.Insert | dev-environment/backend/src/main/java/com/app/demo/repository/ZoneCoverageRepository.java:13 | `save` of a new zone gives it a fresh id and adds exactly that row |
| Repositories.ZoneCoverageRepository.Update | dev-environment/backend/src/main/java/com/app/demo/repository/ZoneCoverageRepository.java:13 | `save` of an existing zone replaces its row and nothing else |
| Repositories.ZoneCoverageRepository.Delete | dev-environment/backend/src/main/java/com/app/demo/repository/ZoneCoverageRepository.java:13 | `deleteById` removes that row only |
| Repositories.ZoneCoverageRepository.FindByPointInsideBoundary | dev-environment/backend/src/main/java/com/app/demo/repository/ZoneCoverageRepository.java:15-21 | returns each active zone with a boundary that contains the point, once, and no other row |
| Repositories.FindByIdForUpdate | dev-environment/backend/src/main/java/com/app/demo/repository/DeliverySlotRepository.java:21-23 | the slot row with that id, or nothing exactly when there is none |
| Repositories.ExistsByDeliveryDateAndTimeSlotTemplateIdAndIdNot | dev-environment/backend/src/main/java/com/app/demo/repository/DeliverySlotRepository.java:19 | true only when a slot other than the excluded one has the date and template; implies the plain exists |
| Repositories.DeliverySlotRepository.Insert | dev-environment/backend/src/main/java/com/app/demo/repository/DeliverySlotRepository.java:15 | `save` of a new slot gives it a fresh id and adds exactly that row |
| Repositories.DeliverySlotRepository.Update | dev-environment/backend/src/main/java/com/app/demo/repository/DeliverySlotRepository.java:15 | `save` of an existing slot replaces its row and nothing else |
| Repositories.DeliverySlotRepository.Delete | dev-environment/backend/src/main/java/com/app/demo/repository/DeliverySlotRepository.java:15 | `deleteById` removes that row only |
| Repositories.ExistsByStartTimeAndEndTimeAndIdNot | dev-environment/backend/src/main/java/com/app/demo/repository/TimeSlotTemplateRepository.java:14 | true only when a template other than the excluded one has the window; implies the plain exists |
| Repositories.TimeSlotTemplateRepository.Insert | dev-environment/backend/src/main/java/com/app/demo/repository/TimeSlotTemplateRepository.java:10 | `save` of a new template gives it a fresh id and adds exactly that row |
| Repositories.TimeSlotTemplateRepository.Update | dev-environment/backend/src/main/java/com/app/demo/repository/TimeSlotTemplateRepository.java:10 | `save` of an existing template replaces its row and nothing else |
| Repositories.TimeSlotTemplateRepository.Delete | dev-environment/backend/src/main/java/com/app/demo/repository/TimeSlotTemplateRepository.java:10 | `deleteById` removes that row only |
| Repositories.CountByDeliverySlotIdAndStatus | dev-environment/backend/src/main/java/com/app/demo/repository/ReservationRepository.java:15 | the number of reservations of that slot in that status, at most the table size |
| Repositories.CountByDeliverySlotIdAndStatusAndIdNot | dev-environment/backend/src/main/java/com/app/demo/repository/ReservationRepository.java:17 | the same count without one id: one less exactly when that id is counted, otherwise equal |
| Repositories.CountAfterSave | dev-environment/backend/src/main/java/com/app/demo/repository/ReservationRepository.java:15-17 | after saving a reservation, the slot's count is the count without it plus one if it now matches the slot and status |
| Repositories.IdsAfterSave | dev-environment/backend/src/main/java/com/app/demo/repository/ReservationRepository.java:15-17 | after saving a reservation, the counted ids are the old ones without it, plus it when it matches |
| Repositories.CountAfterDelete | dev-environment/backend/src/main/java/com/app/demo/repository/ReservationRepository.java:15-17 | after deleting a reservation, the count equals the count that excludes it |
| Repositories.ListedBeforeTotal | dev-environment/backend/src/main/java/com/app/demo/repository/ReservationRepository.java:13 | order by reservedAt descending, then id descending, is total on distinct ids |
| Repositories.ListedBeforeTransitive | dev-environment/backend/src/main/java/com/app/demo/repository/ReservationRepository.java:13 | that order is transitive |
| Repositories.ListedBeforeAsymmetric | dev-environment/backend/src/main/java/com/app/demo/repository/ReservationRepository.java:13 | that order is asymmetric |
| Repositories.SortedHeadFirst | dev-environment/backend/src/main/java/com/app/demo/repository/ReservationRepository.java:13 | the head of a sorted history comes before every other element of it |
| Repositories.InsertListed | dev-environment/backend/src/main/java/com/app/demo/repository/ReservationRepository.java:13 | inserting into a sorted history keeps it sorted and adds exactly that reservation |
| Repositories.SortedBySameElements | dev-environment/backend/src/main/java/com/app/demo/repository/ReservationRepository.java:13 | two sorted histories with the same elements are equal |
| Repositories.HistoryIsUnique | dev-environment/backend/src/main/java/com/app/demo/repository/ReservationRepository.java:13 | a customer's ordered reservation history is uniquely determined |
| Repositories.ReservationRepository.Insert | dev-environment/backend/src/main/java/com/app/demo/repository/ReservationRepository.java:11 | `save` of a new reservation gives it a fresh id and adds exactly that row |
| Repositories.ReservationRepository.Update | dev-environment/backend/src/main/java/com/app/demo/repository/ReservationRepository.java:11 | `save` of an existing reservation replaces its row and nothing else |
| Repositories.ReservationRepository.Delete | dev-environment/backend/src/main/java/com/app/demo/repository/ReservationRepository.java:11 | `deleteById` removes that row only |
| Repositories.ReservationRepository.FindByCustomerIdOrderByReservedAtDescIdDesc | dev-environment/backend/src/main/java/com/app/demo/repository/ReservationRepository.java:13 | exactly the customer's reservations, each once, newest first and ties by id descending |
| Repositories.OpenSessionIds | dev-environment/backend/src/main/java/com/app/demo/repository/ActiveSessionRepository.java:14-16 | a customer's un-ended sessions split, without overlap, into those still live and those lapsed |
| Repositories.ActiveSessionRepository.Insert | dev-environment/backend/src/main/java/com/app/demo/repository/ActiveSessionRepository.java:12 | `save` of a new session gives it a fresh id and adds exactly that row |
| Repositories.ActiveSessionRepository.Update | dev-environment/backend/src/main/java/com/app/demo/repository/ActiveSessionRepository.java:12 | `save` of an existing session replaces its row and nothing else |
| Repositories.ActiveSessionRepository.FindFirstByCustomerIdAndEndedAtIsNullAndExpiresAtAfter | dev-environment/backend/src/main/java/com/app/demo/repository/ActiveSessionRepository.java:14 | one of the customer's un-ended sessions that expires after now; none exactly when there is none |
| Repositories.ActiveSessionRepository.FindByCustomerIdAndEndedAtIsNullAndExpiresAtLessThanEqual | dev-environment/backend/src/main/java/com/app/demo/repository/ActiveSessionRepository.java:16 | every un-ended session of the customer that expired at or before now, each once, and no other row |
| ReservationLedger.StatusOrDefault | dev-environment/backend/src/main/java/com/app/demo/service/ReservationService.java:74-76 | a missing status means CONFIRMED; a given status is kept |
| ReservationLedger.BuildReservedAt | dev-environment/backend/src/main/java/com/app/demo/service/ReservationService.java:208-214 | the instant has the requested local date and time, at UTC |
| ReservationLedger.ReservedAtInstantRoundTrip | dev-environment/backend/src/main/java/com/app/demo/service/ReservationService.java:208-214 | dividing the instant by a day gives the requested date back, and the remainder gives the time |
| ReservationLedger.ValidateAddressBelongsToCustomer | dev-environment/backend/src/main/java/com/app/demo/service/ReservationService.java:181-187 | passes exactly when the address is the customer's; otherwise a bad-argument error |
| ReservationLedger.ValidateAddressWithinDeliverySlot | dev-environment/backend/src/main/java/com/app/demo/service/ReservationService.java:189-206 | passes exactly when the address's zone exists and is bound to the slot; distinct errors for no zone, a missing zone and another slot |
| ReservationLedger.ValidateReservationDateTime | dev-environment/backend/src/main/java/com/app/demo/service/ReservationService.java:216-237 | passes exactly when the date is the slot's date and the time lies in the template window; a wrong date is reported as such |
| ReservationLedger.ValidateCapacity | dev-environment/backend/src/main/java/com/app/demo/service/ReservationService.java:239-260 | passes exactly when a non-CONFIRMED status is asked for, or the CONFIRMED count (without the reservation itself) plus one fits the capacity; otherwise a conflict |
| ReservationLedger.CheckCreate | dev-environment/backend/src/main/java/com/app/demo/service/ReservationService.java:60-77 | passes exactly when all checks pass; the first failing check in source order decides the error: customer, address, ownership, slot, template not found or not owned, then the zone binding's own error, then the date/time check's error, then the capacity check; a capacity error only for CONFIRMED |
| ReservationLedger.CheckUpdate | dev-environment/backend/src/main/java/com/app/demo/service/ReservationService.java:88-112 | passes exactly when the reservation exists, its old slot exists when the slot changes, and the create checks pass with itself excluded from the count; the first failing check decides the error: reservation, customer, address, ownership, slot, previous slot, template, then zone binding, date/time and capacity in that order |
| ReservationLedger.ApplyChanges | dev-environment/backend/src/main/java/com/app/demo/service/ReservationService.java:133-152 | copies the request's references, date-time and status; cancelledAt is set exactly for CANCELLED: stamped with now when it was null, an earlier cancellation time kept |
| ReservationLedger.ApplyChangesIdempotent | dev-environment/backend/src/main/java/com/app/demo/service/ReservationService.java:133-152 | applying the same request again, at any later time, changes nothing |
| ReservationLedger.Recount | dev-environment/backend/src/main/java/com/app/demo/service/ReservationService.java:262-270 | the slot's reservedCount becomes its CONFIRMED count; every other field and every other slot is unchanged |
| ReservationLedger.SaveKeepsCapacity | dev-environment/backend/src/main/java/com/app/demo/service/ReservationService.java:239-260 | when the capacity check passed, saving the reservation keeps the slot's CONFIRMED count within its capacity |
| ReservationLedger.SaveDoesNotRaiseOtherSlot | dev-environment/backend/src/main/java/com/app/demo/service/ReservationService.java:88-123 | saving a reservation into one slot never raises another slot's count |
| ReservationLedger.DeleteDoesNotRaiseCount | dev-environment/backend/src/main/java/com/app/demo/service/ReservationService.java:126-131 | deleting a reservation never raises a count |
| ReservationLedger.ReservationService.constructor | dev-environment/backend/src/main/java/com/app/demo/service/ReservationService.java:27-41 | the service uses the repositories it is given |
| ReservationLedger.ReservationService.FindById | dev-environment/backend/src/main/java/com/app/demo/service/ReservationService.java:54-57 | the stored reservation, or not-found |
| ReservationLedger.ReservationService.FindByCustomerId | dev-environment/backend/src/main/java/com/app/demo/service/ReservationService.java:49-52 | not-found for an unknown customer; otherwise the customer's ordered history |
| ReservationLedger.ReservationService.SyncReservedCount | dev-environment/backend/src/main/java/com/app/demo/service/ReservationService.java:262-270 | not-found and no change for a missing slot; otherwise the slot table is recounted for that slot |
| ReservationLedger.ReservationService.Create | dev-environment/backend/src/main/java/com/app/demo/service/ReservationService.java:60-85 | fails exactly when CheckCreate fails, with its error and no change; on success adds one new row built from the request, recounts its slot, and keeps every slot that was within capacity within capacity |
| ReservationLedger.ReservationService.Update | dev-environment/backend/src/main/java/com/app/demo/service/ReservationService.java:88-123 | fails exactly when CheckUpdate fails, with no change; on success replaces the row, recounts the new slot and, when it changed, the old slot, and keeps capacities |
| ReservationLedger.ReservationService.Delete | dev-environment/backend/src/main/java/com/app/demo/service/ReservationService.java:126-131 | not-found for a missing reservation or slot, with no change; an existing reservation whose slot exists is always deleted: the row removed, its slot recounted and capacities kept |
| ReservationLedger.ReservationResponseFromEntity | dev-environment/backend/src/main/java/com/app/demo/dto/ReservationResponse.java:23-38 | copies every field and splits reservedAt into its local date and time, both absent when reservedAt is absent |
| ReservationLedger.ResponseEchoesRequestedDateTime | dev-environment/backend/src/main/java/com/app/demo/dto/ReservationResponse.java:23-38 | the response to a saved request shows the requested date and time |
| SessionLedger.EndedAtExpiry | dev-environment/backend/src/main/java/com/app/demo/service/ActiveSessionService.java:84-86 | a closed lapsed session ends at its expiry time, with nothing else changed |
| SessionLedger.CloseLapsedEffect | dev-environment/backend/src/main/java/com/app/demo/service/ActiveSessionService.java:78-88 | closing lapsed sessions leaves the customer none lapsed, changes nobody's live sessions and leaves other customers' rows alone |
| SessionLedger.NewSession | dev-environment/backend/src/main/java/com/app/demo/service/ActiveSessionService.java:45-49 | a new session of the customer starts now, is not ended and lasts five minutes |
| SessionLedger.LogoutIdempotent | dev-environment/backend/src/main/java/com/app/demo/service/ActiveSessionService.java:68-76 | a second logout, at any time, changes nothing; a logged-out session is ended |
| SessionLedger.ActiveSessionService.constructor | dev-environment/backend/src/main/java/com/app/demo/service/ActiveSessionService.java:22-28 | the service uses the repositories it is given |
| SessionLedger.ActiveSessionService.CloseExpiredSessions | dev-environment/backend/src/main/java/com/app/demo/service/ActiveSessionService.java:78-88 | ends every lapsed un-ended session of the customer at its expiry; nothing else changes |
| SessionLedger.ActiveSessionService.Login | dev-environment/backend/src/main/java/com/app/demo/service/ActiveSessionService.java:30-51 | unknown customer: not-found, no change; a live session: conflict after closing lapsed ones; otherwise closes lapsed ones and adds one fresh session, which is then the customer's only live session |
| SessionLedger.ActiveSessionService.ValidateSession | dev-environment/backend/src/main/java/com/app/demo/service/ActiveSessionService.java:53-66 | not-found for an unknown id; a live session is returned unchanged; an ended or expired one is reported as not active and closed at its expiry if it was open |
| SessionLedger.ActiveSessionService.Logout | dev-environment/backend/src/main/java/com/app/demo/service/ActiveSessionService.java:68-76 | not-found exactly for an unknown id; an open session is ended now, an ended one is left alone |
| SessionLedger.SessionResponseFromEntity | dev-environment/backend/src/main/java/com/app/demo/dto/ActiveSessionResponse.java:16-25 | copies the fields; active exactly when the session is not ended and expires after now |
| SessionLedger.FreshSessionActiveUntilExpiry | dev-environment/backend/src/main/java/com/app/demo/dto/ActiveSessionResponse.java:16-25 | a fresh session reads as active exactly before its five minutes are over |
| AddressZones.WithRequestFields | dev-environment/backend/src/main/java/com/app/demo/service/DeliveryAddressService.java:76-84 | copies the request's customer and comuna, normalizes the text fields, a missing isDefault is false; id, createdAt, location and zone are kept |
| AddressZones.AddressResponseFromEntity | dev-environment/backend/src/main/java/com/app/demo/dto/DeliveryAddressResponse.java:29-51 | copies every field and the zone name; latitude is the point's y and longitude its x, both absent without a point |
| AddressZones.AddressResponseFromEntityWithoutZone | dev-environment/backend/src/main/java/com/app/demo/dto/DeliveryAddressResponse.java:25-27 | the same response with no zone name |
| AddressZones.CoordinatesRoundTrip | dev-environment/backend/src/main/java/com/app/demo/service/DeliveryAddressService.java:86-89 | a point built from a latitude and longitude is reported back with the same latitude and longitude |
| AddressZones.ZoneName | dev-environment/backend/src/main/java/com/app/demo/service/DeliveryAddressService.java:108-116 | the name of the address's zone, absent when it has no zone or the zone is gone |
| AddressZones.DeliveryAddressService.constructor | dev-environment/backend/src/main/java/com/app/demo/service/DeliveryAddressService.java:27-36 | the service uses the repositories it is given |
| AddressZones.DeliveryAddressService.ApplyChanges | dev-environment/backend/src/main/java/com/app/demo/service/DeliveryAddressService.java:76-106 | without both coordinates: no location and no zone; with both: refused when no active zone contains the point, otherwise the point and a containing zone are set |
| AddressZones.DeliveryAddressService.Create | dev-environment/backend/src/main/java/com/app/demo/service/DeliveryAddressService.java:53-60 | not-found for an unknown customer; for a known one, success exactly when the address has no coordinate pair or an active zone covers its point, else outside-coverage; the one new row carries every request field, createdAt now, and no location and zone or the point and a covering zone; reported with its zone name and coordinates |
| AddressZones.DeliveryAddressService.Update | dev-environment/backend/src/main/java/com/app/demo/service/DeliveryAddressService.java:62-67 | not-found for an unknown id; for an existing one, success exactly when the address has no coordinate pair or an active zone covers its point, else outside-coverage; only that row is replaced, with every request field, createdAt kept and a zone exactly when there is a location, covering the point |
| AddressZones.DeliveryAddressService.Delete | dev-environment/backend/src/main/java/com/app/demo/service/DeliveryAddressService.java:69-74 | not-found and no change for an unknown id; otherwise removes that row |
| SlotTable.IsReservedCountValid | dev-environment/backend/src/main/java/com/app/demo/dto/DeliverySlotRequest.java:31-37 | true when either number is missing, otherwise exactly when reserved does not exceed capacity |
| SlotTable.ApplySlotChanges | dev-environment/backend/src/main/java/com/app/demo/service/DeliverySlotService.java:92-105 | refused exactly when reserved (null as 0) exceeds capacity (null as 0); otherwise copies the request, null isActive meaning true; a validated request gives a slot within bounds |
| SlotTable.ValidatorMatchesService | dev-environment/backend/src/main/java/com/app/demo/service/DeliverySlotService.java:92-105 | with both numbers given, the request validator and the service agree |
| SlotTable.MissingCapacityRefusedByService | dev-environment/backend/src/main/java/com/app/demo/dto/DeliverySlotRequest.java:31-37 | a request with reserved places and no capacity passes validation but the service refuses it |
| SlotTable.ValidateUniqueDeliverySlot | dev-environment/backend/src/main/java/com/app/demo/service/DeliverySlotService.java:74-90 | passes exactly when no other slot has the same date and template |
| SlotTable.SaveKeepsUnique | dev-environment/backend/src/main/java/com/app/demo/service/DeliverySlotService.java:74-90 | saving a slot that clashes with no other keeps (date, template) unique |
| SlotTable.DeliverySlotService.constructor | dev-environment/backend/src/main/java/com/app/demo/service/DeliverySlotService.java:20-26 | the service uses the repositories it is given |
| SlotTable.DeliverySlotService.Create | dev-environment/backend/src/main/java/com/app/demo/service/DeliverySlotService.java:41-48 | template-not-found, then duplicate, then reserved-over-capacity; success exactly when the template exists, the pair is new and reserved places fit the capacity; adds one new row equal to the applied request, within bounds; uniqueness is kept |
| SlotTable.DeliverySlotService.Update | dev-environment/backend/src/main/java/com/app/demo/service/DeliverySlotService.java:50-57 | not-found, template-not-found, duplicate (ignoring itself), then reserved-over-capacity; success exactly when all pass; replaces only that row with the applied request; uniqueness is kept |
| SlotTable.DeliverySlotService.Delete | dev-environment/backend/src/main/java/com/app/demo/service/DeliverySlotService.java:59-64 | not-found and no change for an unknown id; otherwise removes that row |
| TemplateTable.IsTimeRangeValid | dev-environment/backend/src/main/java/com/app/demo/dto/TimeSlotTemplateRequest.java:18-24 | true when either time is missing, otherwise exactly when start is before end |
| TemplateTable.AcceptedWindowNonEmpty | dev-environment/backend/src/main/java/com/app/demo/dto/TimeSlotTemplateRequest.java:18-24 | an accepted window has positive length; equal start and end are refused |
| TemplateTable.ApplyTemplateChanges | dev-environment/backend/src/main/java/com/app/demo/service/TimeSlotTemplateService.java:58-62 | copies both times; a null isActive means true |
| TemplateTable.SaveKeepsUniqueWindows | dev-environment/backend/src/main/java/com/app/demo/service/TimeSlotTemplateService.java:31-49 | saving a template whose window no other has keeps windows unique |
| TemplateTable.TimeSlotTemplateService.constructor | dev-environment/backend/src/main/java/com/app/demo/service/TimeSlotTemplateService.java:18-20 | the service uses the repository it is given |
| TemplateTable.TimeSlotTemplateService.Create | dev-environment/backend/src/main/java/com/app/demo/service/TimeSlotTemplateService.java:31-39 | a duplicate exactly when the window exists, and success otherwise; adds one new row; unique and non-empty windows are kept |
| TemplateTable.TimeSlotTemplateService.Update | dev-environment/backend/src/main/java/com/app/demo/service/TimeSlotTemplateService.java:41-49 | not-found; for an existing id, a duplicate exactly when another row has the window, and success otherwise; replaces only that row; invariants kept |
| TemplateTable.TimeSlotTemplateService.Delete | dev-environment/backend/src/main/java/com/app/demo/service/TimeSlotTemplateService.java:51-56 | not-found and no change for an unknown id; otherwise removes that row |
| ZoneTable.ToPolygon | dev-environment/backend/src/main/java/com/app/demo/service/ZoneCoverageService.java:84-93 | a non-polygon is refused; an empty or invalid polygon is refused; otherwise the polygon itself |
| ZoneTable.ValidateDeliverySlot | dev-environment/backend/src/main/java/com/app/demo/service/ZoneCoverageService.java:60-64 | passes exactly when no slot is named or the named slot exists |
| ZoneTable.ApplyZoneChanges | dev-environment/backend/src/main/java/com/app/demo/service/ZoneCoverageService.java:66-82 | fails exactly when the boundary is refused; otherwise sets the boundary, its centroid, trimmed and normalized texts, the slot, capacity (null as 0) and isActive (null as true) |
| ZoneTable.AppliedZoneWellFormed | dev-environment/backend/src/main/java/com/app/demo/service/ZoneCoverageService.java:66-93 | every zone the service builds has a valid, non-empty boundary and its centroid as location |
| ZoneTable.ZoneCoverageService.constructor | dev-environment/backend/src/main/java/com/app/demo/service/ZoneCoverageService.java:22-28 | the service uses the repositories it is given |
| ZoneTable.ZoneCoverageService.Create | dev-environment/backend/src/main/java/com/app/demo/service/ZoneCoverageService.java:39-44 | slot-not-found first, then the boundary's error, and success when both checks pass; adds one new row; well-formed tables stay well formed |
| ZoneTable.ZoneCoverageService.Update | dev-environment/backend/src/main/java/com/app/demo/service/ZoneCoverageService.java:46-51 | not-found, slot-not-found, boundary error, and success for an existing id when both checks pass; replaces only that row; well-formedness kept |
| ZoneTable.ZoneCoverageService.Delete | dev-environment/backend/src/main/java/com/app/demo/service/ZoneCoverageService.java:53-58 | not-found and no change for an unknown id; otherwise removes that row |
| CustomerTable.SanitizeEmail | dev-environment/backend/src/main/java/com/app/demo/service/CustomerService.java:73-75 | the e-mail trimmed and lower-cased: no outer spaces, already lower case, equal to the trimmed input ignoring case |
| CustomerTable.SanitizeEmailIdempotent | dev-environment/backend/src/main/java/com/app/demo/service/CustomerService.java:73-75 | sanitizing twice equals sanitizing once |
| CustomerTable.LookupIgnoresCaseAndPadding | dev-environment/backend/src/main/java/com/app/demo/service/CustomerService.java:31-35 | a stored e-mail is found from any casing or padding of it |
| CustomerTable.ApplyCustomerChanges | dev-environment/backend/src/main/java/com/app/demo/service/CustomerService.java:66-71 | trimmed name, sanitized e-mail, normalized phone, the request's type; the id is kept |
| CustomerTable.SaveKeepsEmailsUnique | dev-environment/backend/src/main/java/com/app/demo/service/CustomerService.java:37-57 | saving a customer whose e-mail clashes with no other keeps e-mails unique ignoring case, and sanitized |
| CustomerTable.SaveKeepsUnique | dev-environment/backend/src/main/java/com/app/demo/service/CustomerService.java:37-57 | the uniqueness half of that |
| CustomerTable.SaveKeepsSanitized | dev-environment/backend/src/main/java/com/app/demo/service/CustomerService.java:37-57 | the sanitized half of that |
| CustomerTable.CustomerService.constructor | dev-environment/backend/src/main/java/com/app/demo/service/CustomerService.java:18-20 | the service uses the repository it is given |
| CustomerTable.CustomerService.FindByEmail | dev-environment/backend/src/main/java/com/app/demo/service/CustomerService.java:31-35 | not-registered exactly when no e-mail matches the sanitized one ignoring case; otherwise a stored matching customer |
| CustomerTable.CustomerService.Create | dev-environment/backend/src/main/java/com/app/demo/service/CustomerService.java:37-46 | a conflict exactly when the sanitized e-mail exists, and success otherwise; adds one new row; unique sanitized e-mails stay so |
| CustomerTable.CustomerService.Update | dev-environment/backend/src/main/java/com/app/demo/service/CustomerService.java:48-57 | not-found; for an existing id, a conflict exactly when another customer has the e-mail, and success otherwise; replaces only that row; invariant kept |
| CustomerTable.CustomerService.Delete | dev-environment/backend/src/main/java/com/app/demo/service/CustomerService.java:59-64 | not-found and no change for an unknown id; otherwise removes that row |
| JsonTokens.JsonParser.NextToken | dev-environment/backend/src/main/java/com/app/demo/config/jackson/GeometryDeserializer.java:32 | reads the next token and advances by one; none at the end of the input |
| JsonTokens.ItemsTokensAppend | dev-environment/backend/src/main/java/com/app/demo/config/jackson/GeometrySerializer.java:133-140 | the tokens of two item lists concatenate |
| GeoJsonWriter.TypeNameIdentifiesKind | dev-environment/backend/src/main/java/com/app/demo/config/jackson/GeometrySerializer.java:28-49 | two geometries get the same "type" text exactly when they are of the same kind |
| GeoJsonWriter.PositionValue | dev-environment/backend/src/main/java/com/app/demo/config/jackson/GeometrySerializer.java:122-131 | a position is [x, y], plus z when the coordinate has one |
| GeoJsonWriter.PositionsValue | dev-environment/backend/src/main/java/com/app/demo/config/jackson/GeometrySerializer.java:133-140 | a coordinate list is the list of its positions, in order |
| GeoJsonWriter.RingsValue | dev-environment/backend/src/main/java/com/app/demo/config/jackson/GeometrySerializer.java:112-120 | a polygon is its shell followed by its holes, in order |
| GeoJsonWriter.CoordinatesValue | dev-environment/backend/src/main/java/com/app/demo/config/jackson/GeometrySerializer.java:51-99 | the coordinates of each kind; a multi-geometry is the list of its members' coordinates |
| GeoJsonWriter.GeometryIsOneTypedObject | dev-environment/backend/src/main/java/com/app/demo/config/jackson/GeometrySerializer.java:28-49 | every geometry is one object opening with its "type" and then "coordinates", or "geometries" for a collection |
| GeoJsonWriter.WriteCoordinate | dev-environment/backend/src/main/java/com/app/demo/config/jackson/GeometrySerializer.java:122-131 | appends exactly the position's tokens |
| GeoJsonWriter.WriteCoordinateArray | dev-environment/backend/src/main/java/com/app/demo/config/jackson/GeometrySerializer.java:133-140 | appends exactly the coordinate list's tokens |
| GeoJsonWriter.WritePolygonCoordinates | dev-environment/backend/src/main/java/com/app/demo/config/jackson/GeometrySerializer.java:112-120 | appends exactly the rings' tokens |
| GeoJsonWriter.WriteLineArrays | dev-environment/backend/src/main/java/com/app/demo/config/jackson/GeometrySerializer.java:72-81 | appends exactly the lines' tokens |
| GeoJsonWriter.WritePolygonArrays | dev-environment/backend/src/main/java/com/app/demo/config/jackson/GeometrySerializer.java:90-99 | appends exactly the polygons' tokens |
| GeoJsonWriter.WriteGeometry | dev-environment/backend/src/main/java/com/app/demo/config/jackson/GeometrySerializer.java:28-49 | appends exactly the geometry's object |
| GeoJsonWriter.WritePoint | dev-environment/backend/src/main/java/com/app/demo/config/jackson/GeometrySerializer.java:51-56 | appends the point's "coordinates" member |
| GeoJsonWriter.WriteMultiPoint | dev-environment/backend/src/main/java/com/app/demo/config/jackson/GeometrySerializer.java:58-63 | appends the multi-point's "coordinates" member |
| GeoJsonWriter.WriteLineString | dev-environment/backend/src/main/java/com/app/demo/config/jackson/GeometrySerializer.java:65-70 | appends the line's "coordinates" member |
| GeoJsonWriter.WriteMultiLineString | dev-environment/backend/src/main/java/com/app/demo/config/jackson/GeometrySerializer.java:72-81 | appends the lines' "coordinates" member |
| GeoJsonWriter.WritePolygon | dev-environment/backend/src/main/java/com/app/demo/config/jackson/GeometrySerializer.java:83-88 | appends the polygon's "coordinates" member |
| GeoJsonWriter.WriteMultiPolygon | dev-environment/backend/src/main/java/com/app/demo/config/jackson/GeometrySerializer.java:90-99 | appends the polygons' "coordinates" member |
| GeoJsonWriter.WriteGeometryCollection | dev-environment/backend/src/main/java/com/app/demo/config/jackson/GeometrySerializer.java:101-110 | appends the "geometries" member holding each member geometry's object |
| GeoJsonWriter.Serialize | dev-environment/backend/src/main/java/com/app/demo/config/jackson/GeometrySerializer.java:19-26 | a null geometry is written as null, any other as its object |
| GeoJsonReader.ParsedArray | dev-environment/backend/src/main/java/com/app/demo/config/jackson/GeometryDeserializer.java:68-78 | a parsed array is an array and consumes at least one token |
| GeoJsonReader.ToCoordinate | dev-environment/backend/src/main/java/com/app/demo/config/jackson/GeometryDeserializer.java:90-99 | succeeds exactly on a list of at least two numbers whose third element, if any, is a number; x, y and z are those numbers |
| GeoJsonReader.ToCoordinates | dev-environment/backend/src/main/java/com/app/demo/config/jackson/GeometryDeserializer.java:102-105 | succeeds exactly when every element converts; the results are those coordinates, in order |
| GeoJsonReader.ToCoordinateArray | dev-environment/backend/src/main/java/com/app/demo/config/jackson/GeometryDeserializer.java:102-105 | a missing value or a number is malformed; a list converts element by element |
| GeoJsonReader.CreateLineString | dev-environment/backend/src/main/java/com/app/demo/config/jackson/GeometryDeserializer.java:120-122 | succeeds exactly when the list converts and is not a single point |
| GeoJsonReader.CreateLineStrings | dev-environment/backend/src/main/java/com/app/demo/config/jackson/GeometryDeserializer.java:125-131 | succeeds exactly when every line is accepted; the lines, in order |
| GeoJsonReader.CreateRings | dev-environment/backend/src/main/java/com/app/demo/config/jackson/GeometryDeserializer.java:138-140 | succeeds exactly when every ring converts and is a valid ring; the rings, in order |
| GeoJsonReader.PolygonFromRings | dev-environment/backend/src/main/java/com/app/demo/config/jackson/GeometryDeserializer.java:134-142 | no rings is malformed; on success the first ring is the shell, the rest the holes, and the polygon is valid |
| GeoJsonReader.CreatePolygons | dev-environment/backend/src/main/java/com/app/demo/config/jackson/GeometryDeserializer.java:145-151 | succeeds exactly when every polygon is built; the polygons, in order |
| GeoJsonReader.TypeNamed | dev-environment/backend/src/main/java/com/app/demo/config/jackson/GeometryDeserializer.java:51-60 | each case of the switch selects the kind whose type text it is |
| GeoJsonReader.TypeNameSelectsItsCase | dev-environment/backend/src/main/java/com/app/demo/config/jackson/GeometryDeserializer.java:51-60 | every written type text selects its own kind |
| GeoJsonReader.BuildTagged | dev-environment/backend/src/main/java/com/app/demo/config/jackson/GeometryDeserializer.java:51-60 | the switch builds a geometry of the selected kind; a collection without "geometries" is empty |
| GeoJsonReader.Build | dev-environment/backend/src/main/java/com/app/demo/config/jackson/GeometryDeserializer.java:47-60 | no "type" gives null; a built geometry's type text is the one read |
| GeoJsonReader.Present | dev-environment/backend/src/main/java/com/app/demo/config/jackson/GeometryDeserializer.java:153-156 | a collection's members, in order |
| GeoJsonReader.ItemsRoundTrip | dev-environment/backend/src/main/java/com/app/demo/config/jackson/GeometryDeserializer.java:68-78 | parsing the tokens of written array items gives those items back |
| GeoJsonReader.ArrayRoundTrip | dev-environment/backend/src/main/java/com/app/demo/config/jackson/GeometryDeserializer.java:68-78 | parsing a written array gives it back and stops right after it |
| GeoJsonReader.CoordinatesRoundTrip | dev-environment/backend/src/main/java/com/app/demo/config/jackson/GeometryDeserializer.java:102-105 | a written coordinate list reads back as the same coordinates |
| GeoJsonReader.RingsRoundTrip | dev-environment/backend/src/main/java/com/app/demo/config/jackson/GeometryDeserializer.java:134-142 | written valid rings read back as the same rings |
| GeoJsonReader.PolygonRoundTrip | dev-environment/backend/src/main/java/com/app/demo/config/jackson/GeometryDeserializer.java:134-142 | a written valid polygon reads back as the same polygon |
| GeoJsonReader.LinesRoundTrip | dev-environment/backend/src/main/java/com/app/demo/config/jackson/GeometryDeserializer.java:125-131 | written valid lines read back as the same lines |
| GeoJsonReader.PolygonsRoundTrip | dev-environment/backend/src/main/java/com/app/demo/config/jackson/GeometryDeserializer.java:145-151 | written valid polygons read back as the same polygons |
| GeoJsonReader.BuildRoundTrip | dev-environment/backend/src/main/java/com/app/demo/config/jackson/GeometryDeserializer.java:47-60 | the members written for a geometry other than a collection build that geometry |
| GeoJsonReader.TaggedRoundTrip | dev-environment/backend/src/main/java/com/app/demo/config/jackson/GeometryDeserializer.java:51-57 | each case of the switch rebuilds the geometry from its written coordinates |
| GeoJsonReader.PointRoundTrip | dev-environment/backend/src/main/java/com/app/demo/config/jackson/GeometryDeserializer.java:107-109 | a written point reads back |
| GeoJsonReader.MultiPointRoundTrip | dev-environment/backend/src/main/java/com/app/demo/config/jackson/GeometryDeserializer.java:112-118 | a written multi-point reads back |
| GeoJsonReader.LineStringRoundTrip | dev-environment/backend/src/main/java/com/app/demo/config/jackson/GeometryDeserializer.java:120-122 | a written valid line reads back |
| GeoJsonReader.PolygonCaseRoundTrip | dev-environment/backend/src/main/java/com/app/demo/config/jackson/GeometryDeserializer.java:134-142 | a written valid polygon reads back through the switch |
| GeoJsonReader.MultiLineStringRoundTrip | dev-environment/backend/src/main/java/com/app/demo/config/jackson/GeometryDeserializer.java:125-131 | a written multi-line of valid lines reads back |
| GeoJsonReader.MultiPolygonRoundTrip | dev-environment/backend/src/main/java/com/app/demo/config/jackson/GeometryDeserializer.java:145-151 | a written multi-polygon of valid polygons reads back |
| GeoJsonReader.ReadTypeMember | dev-environment/backend/src/main/java/com/app/demo/config/jackson/GeometryDeserializer.java:36-37 | a "type" member records its text and moves on |
| GeoJsonReader.ReadCoordinatesMember | dev-environment/backend/src/main/java/com/app/demo/config/jackson/GeometryDeserializer.java:38-39 | a "coordinates" member records its array and moves on past it |
| GeoJsonReader.ReadEndOfObject | dev-environment/backend/src/main/java/com/app/demo/config/jackson/GeometryDeserializer.java:32-60 | the end of the object builds the geometry from what was read |
| GeoJsonReader.GeometryRoundTrip | dev-environment/backend/src/main/java/com/app/demo/config/jackson/GeometryDeserializer.java:25-61 | a written geometry JTS can build reads back as itself, leaving the rest of the input |
| GeoJsonReader.ReadGeometriesMember | dev-environment/backend/src/main/java/com/app/demo/config/jackson/GeometryDeserializer.java:40-41 | a written "geometries" member records its geometries |
| GeoJsonReader.MembersRoundTrip | dev-environment/backend/src/main/java/com/app/demo/config/jackson/GeometryDeserializer.java:80-87 | written member geometries read back in order |
| GeoJsonReader.SerializeThenDeserialize | dev-environment/backend/src/main/java/com/app/demo/config/jackson/GeometrySerializer.java:19-26 | reading what the serializer wrote gives the geometry (or null) back, leaving the rest of the input |
| GeoJsonReader.BuildTaggedConstructible | dev-environment/backend/src/main/java/com/app/demo/config/jackson/GeometryDeserializer.java:51-60 | what a case of the switch builds is a geometry JTS accepts |
| GeoJsonReader.ReadMembersConstructible | dev-environment/backend/src/main/java/com/app/demo/config/jackson/GeometryDeserializer.java:32-60 | whatever the reader builds is a geometry JTS accepts |
| GeoJsonReader.ParsedGeometriesConstructible | dev-environment/backend/src/main/java/com/app/demo/config/jackson/GeometryDeserializer.java:80-87 | every member geometry read is one JTS accepts |
| GeoJsonReader.ReadThenWriteThenRead | dev-environment/backend/src/main/java/com/app/demo/config/jackson/GeometryDeserializer.java:25-61 | writing what was read and reading it again gives the same geometry |
| GeoJsonReader.ParseArray | dev-environment/backend/src/main/java/com/app/demo/config/jackson/GeometryDeserializer.java:68-78 | the loop returns what ParsedArray returns and leaves the parser where ParsedArray stops |
| GeoJsonReader.SkipChildren | dev-environment/backend/src/main/java/com/app/demo/config/jackson/GeometryDeserializer.java:43 | skips exactly the value of an unknown member |
| GeoJsonReader.CreatePolygon | dev-environment/backend/src/main/java/com/app/demo/config/jackson/GeometryDeserializer.java:134-142 | the loop over the holes builds what PolygonFromRings builds |
| GeoJsonReader.CreateHoles | dev-environment/backend/src/main/java/com/app/demo/config/jackson/GeometryDeserializer.java:137-140 | the loop builds exactly the rings CreateRings builds |
| GeoJsonReader.CreateGeometry | dev-environment/backend/src/main/java/com/app/demo/config/jackson/GeometryDeserializer.java:47-60 | builds exactly what Build builds |
| GeoJsonReader.Deserialize | dev-environment/backend/src/main/java/com/app/demo/config/jackson/GeometryDeserializer.java:25-61 | the member loop returns what Deserialized returns and stops where it stops |
| GeoJsonReader.ParseGeometries | dev-environment/backend/src/main/java/com/app/demo/config/jackson/GeometryDeserializer.java:80-87 | the loop returns what ParsedGeometries returns and stops where it stops |
| GeoJsonReader.ReadGeometry | dev-environment/backend/src/main/java/com/app/demo/config/jackson/GeometryDeserializer.java:25-61 | a null token reads as null, an object as its geometry, as Decoded says |
| GeoJsonReader.SerializeThenRead | dev-environment/backend/src/main/java/com/app/demo/config/jackson/GeometrySerializer.java:19-26 | serializing and then deserializing through the two classes gives the geometry back |
| MapPoints.SwapRoundTrip | dev-environment/frontend/src/pages/ZoneCoverages.tsx:72-84 | `[lng, lat]` and `{lat, lng}` convert into each other without loss |
| MapPoints.ToLatLngs | dev-environment/frontend/src/pages/ZoneCoverages.tsx:72 | each position becomes its map point, in order |
| MapPoints.ToPositions | dev-environment/frontend/src/pages/ZoneCoverages.tsx:84 | each map point becomes its position, in order |
| ZoneBoundaryEditor.GeoJsonToPoints | dev-environment/frontend/src/pages/ZoneCoverages.tsx:67-81 | nothing without a polygon ring; otherwise the first ring's points, without the last exactly when the ring is closed |
| ZoneBoundaryEditor.ClosedRing | dev-environment/frontend/src/pages/ZoneCoverages.tsx:83-91 | the points as positions, plus the first again exactly when the last differs from it; the ring is closed |
| ZoneBoundaryEditor.PointsToGeoJson | dev-environment/frontend/src/pages/ZoneCoverages.tsx:83-96 | a polygon whose only ring is the closed ring of the points |
| ZoneBoundaryEditor.EditorRoundTrip | dev-environment/frontend/src/pages/ZoneCoverages.tsx:67-96 | reading back the sent polygon gives the points exactly when the user did not repeat the first point at the end; otherwise that last point is dropped |
| ReservationPicker.PolygonToLatLng | dev-environment/frontend/src/pages/CustomerDetail.tsx:108-113 | nothing without a polygon ring; otherwise every point of the first ring, in order |
| ReservationPicker.EditorPointsArePrefixOfDrawnRing | dev-environment/frontend/src/pages/CustomerDetail.tsx:108-113 | the zone editor shows the customer page's points, possibly without the last |
| ReservationPicker.ToInputTime | dev-environment/frontend/src/pages/CustomerDetail.tsx:115-121 | the first five characters of a long value, a short one unchanged |
| ReservationPicker.ToInputTimeIdempotent | dev-environment/frontend/src/pages/CustomerDetail.tsx:115-121 | shortening twice equals shortening once |
| ReservationPicker.FindAddress | dev-environment/frontend/src/pages/CustomerDetail.tsx:198 | the first address with that id, none exactly when no address has it |
| ReservationPicker.FindZone | dev-environment/frontend/src/pages/CustomerDetail.tsx:207 | the first zone with that id, none exactly when no zone has it |
| ReservationPicker.SlotById | dev-environment/frontend/src/pages/CustomerDetail.tsx:183-186 | the last slot with that id (a map keeps the last entry), none exactly when no slot has it |
| ReservationPicker.TemplateById | dev-environment/frontend/src/pages/CustomerDetail.tsx:178-181 | the last template with that id (a map keeps the last entry), none exactly when no template has it |
| ReservationPicker.SlotByIdWhenUnique | dev-environment/frontend/src/pages/CustomerDetail.tsx:183-186 | with distinct ids the lookup gives the slot itself |
| ReservationPicker.ActiveSlots | dev-environment/frontend/src/pages/CustomerDetail.tsx:212 | exactly the active slots |
| ReservationPicker.ActiveSlotsAppend | dev-environment/frontend/src/pages/CustomerDetail.tsx:212 | the filter of a concatenation is the concatenation of the filters, so the order of the input is kept |
| ReservationPicker.ActiveSlotsMultiplicity | dev-environment/frontend/src/pages/CustomerDetail.tsx:212 | every active slot is kept as often as it occurs, every inactive one dropped |
| ReservationPicker.SlotsWithId | dev-environment/frontend/src/pages/CustomerDetail.tsx:228 | exactly the slots with that id |
| ReservationPicker.SlotsWithIdAppend | dev-environment/frontend/src/pages/CustomerDetail.tsx:228 | the filter of a concatenation is the concatenation of the filters, so the order of the input is kept |
| ReservationPicker.SlotsWithIdMultiplicity | dev-environment/frontend/src/pages/CustomerDetail.tsx:228 | every slot with that id is kept as often as it occurs, every other dropped |
| ReservationPicker.SelectedAddress | dev-environment/frontend/src/pages/CustomerDetail.tsx:193-200 | none without a chosen address; otherwise the address with the chosen id |
| ReservationPicker.SlotIdForSelectedAddress | dev-environment/frontend/src/pages/CustomerDetail.tsx:202-209 | the slot of the selected address's zone; none without an address, a zone or a zone slot |
| ReservationPicker.AvailableDeliverySlots | dev-environment/frontend/src/pages/CustomerDetail.tsx:211-233 | all active slots without an address; without a zone slot at most the current slot, exactly when it exists and no active slot carries its id; otherwise the active zone slot plus the current slot when missing; partners OfferedSlotsAreBoundOrCurrent, CurrentSlotOffered, NoZoneSlotOffersOnlyInactive |
| ReservationPicker.OfferedSlotsAreBoundOrCurrent | dev-environment/frontend/src/pages/CustomerDetail.tsx:211-233 | every offered slot is an active slot of the address's zone (or any active one without an address) or the form's current slot |
| ReservationPicker.CurrentSlotOffered | dev-environment/frontend/src/pages/CustomerDetail.tsx:228-231 | with a zone slot, the form's current slot is always offered |
| ReservationPicker.NoZoneSlotOffersOnlyInactive | dev-environment/frontend/src/pages/CustomerDetail.tsx:221-226 | without a zone slot at most one slot is offered: the current one, exactly when it exists and is inactive |
| ReservationPicker.AddressChange | dev-environment/frontend/src/pages/CustomerDetail.tsx:637-663 | clearing the address clears the slot; otherwise the slot becomes the zone's slot and the date and start time are taken from it and its template when found |
| ReservationPicker.ChosenSlotIsOffered | dev-environment/frontend/src/pages/CustomerDetail.tsx:637-663 | after choosing an address the form's slot is the address's zone slot, and when that slot exists it is offered |
| TemplateForm.ToInputTime | dev-environment/frontend/src/pages/TimeSlotTemplates.tsx:23-25 | the first five characters; a missing value is empty |
| TemplateForm.InputTimesAgree | dev-environment/frontend/src/pages/TimeSlotTemplates.tsx:23-25 | this page and the customer page shorten times alike |
| TemplateForm.ToApiTime | dev-environment/frontend/src/pages/TimeSlotTemplates.tsx:27-29 | ":00" is appended exactly to a five-character value |
| TemplateForm.ApiTimeRoundTrip | dev-environment/frontend/src/pages/TimeSlotTemplates.tsx:23-29 | an "HH:MM" sent to the API reads back in the form unchanged |
| TemplateForm.InputTimeRoundTrip | dev-environment/frontend/src/pages/TimeSlotTemplates.tsx:23-29 | an "HH:MM:SS" from the API is sent back with ":00" seconds, so unchanged exactly when its seconds are ":00" |
| TemplateForm.Split | dev-environment/frontend/src/pages/TimeSlotTemplates.tsx:32 | at least one piece and no piece holds a colon |
| TemplateForm.SplitJoin | dev-environment/frontend/src/pages/TimeSlotTemplates.tsx:32 | joining the pieces with colons gives the text back |
| TemplateForm.SplitAtColon | dev-environment/frontend/src/pages/TimeSlotTemplates.tsx:32 | a piece followed by a colon is the first piece |
| TemplateForm.SplitWhole | dev-environment/frontend/src/pages/TimeSlotTemplates.tsx:32 | a text without a colon is one piece |
| TemplateForm.ToNumber | dev-environment/frontend/src/pages/TimeSlotTemplates.tsx:32 | a digit string is its value, the empty string 0, anything else NaN |
| TemplateForm.ToMinutes | dev-environment/frontend/src/pages/TimeSlotTemplates.tsx:31-34 | defined exactly when there are two pieces and both are numbers; never negative |
| TemplateForm.ClockMinutes | dev-environment/frontend/src/pages/TimeSlotTemplates.tsx:31-34 | "H:M" is H times sixty plus M, and trailing seconds change nothing |
| TemplateForm.NoColonIsNaN | dev-environment/frontend/src/pages/TimeSlotTemplates.tsx:31-34 | a text without a colon is NaN |
| TemplateForm.IsEndTimeGreaterThanStartTime | dev-environment/frontend/src/pages/TimeSlotTemplates.tsx:78-81 | false for an empty field; true only when both times read as minutes and the end is later |
| TemplateForm.GuardOnClockTimes | dev-environment/frontend/src/pages/TimeSlotTemplates.tsx:78-81 | for two clock times the guard holds exactly when the end is later |
| TemplateForm.GuardOnMinutes | dev-environment/frontend/src/pages/TimeSlotTemplates.tsx:78-81 | with both times defined the guard is the comparison of their minutes |
| TemplateForm.ToPayload | dev-environment/frontend/src/pages/TimeSlotTemplates.tsx:72-76 | both times in the API's format, isActive kept |
| TemplateForm.Submit | dev-environment/frontend/src/pages/TimeSlotTemplates.tsx:83-90 | rejected with the end-before-start message exactly when the guard fails; otherwise the payload, whose times read back as entered |

## Left out

- HTTP controllers, exception handlers, JSON (de)serialization of the other DTOs and the Jackson module wiring: they only route requests to the modelled services.
- Bean validation on requests (`@NotNull`, `@Min`, `@DecimalMin`, `@AssertTrue`): it is the `ValidRequest` precondition of the slot and template services. The validators themselves are modelled (`SlotTable.IsReservedCountValid`, `TemplateTable.IsTimeRangeValid`).
- Transactions and row locking: only `ReservationService` is transactional. Its methods, and those of the other services that run every check before they write, write nothing when they fail, which is also what a rolled-back transaction leaves. `findByIdForUpdate` is a plain lookup; concurrent callers are not modelled.
- Two session methods write and then fail, as the source does, because `ActiveSessionService` has no transaction. `SessionLedger.ActiveSessionService.Login` saves the lapsed sessions it closed before it raises the conflict. `SessionLedger.ActiveSessionService.ValidateSession` saves an ended or expired session, closed at its expiry, before it reports not-found. Their contracts state these writes.
- ReservationLedger.ApplyChanges: `version` is copied unchanged. Hibernate increments the `@Version` column on every update it flushes, and the optimistic-lock check that goes with it is not modelled.
- PostGIS and JTS geometry: `ST_Contains`, `isValid` and `getCentroid` are function parameters with no properties assumed. Only the rules by which JTS refuses a line of one point, an unclosed or short ring, and a polygon whose holes are not rings are written out.
- Floating point: coordinates are reals compared exactly. Rounding, NaN and -0 are not modelled.
- The clock: `now` is a parameter of every service operation whose logic reads the current time (reservation instants, cancellation, session expiry). All instants are at UTC, the offset `buildReservedAt` uses.
- Audit timestamps: the `createdAt` and `updatedAt` fields of customers, delivery slots and zone coverages, stamped from the clock by the entities' persistence hooks (dev-environment/backend/src/main/java/com/app/demo/model/Customer.java:35-40, DeliverySlot.java:41-55, ZoneCoverage.java:56-70) and echoed in their responses, are not part of the entities here, because no logic reads them. So `CustomerTable.CustomerService.Create`, `SlotTable.DeliverySlotService.Create`, `SlotTable.DeliverySlotService.Update`, `ZoneTable.ZoneCoverageService.Create`, `ZoneTable.ZoneCoverageService.Update`, `ReservationLedger.Recount` and `ReservationLedger.ReservationService.SyncReservedCount` take no `now` and leave those stamps out of the saved rows.
- Ids are assigned by a counter in each repository, standing for the IDENTITY column. The plain lookups (`findAll`, `findById` of the tables other than reservations) and the location, region, ciudad and comuna services are read-only and not modelled.
- CustomerRepository.java is not part of this model's sources; its derived queries are modelled from their names and their use in `CustomerService`.
- Jackson's `JsonParser`/`JsonGenerator` are a token sequence. Text, whitespace and number formatting are not modelled. A token stream that is not JSON reads as the error `Malformed`. A "type" holding a number, a boolean or null reads as its text, which names no case, so the result is null, as in the source.
- GeoJsonReader.ReadMembers: four valid JSON inputs inside a geometry object read as `Malformed`, where `GeometryDeserializer` instead reads on out of step with the nesting. The source then returns null or a wrong geometry, or Jackson fails further on:
  - A "type" whose value is an object or an array: `getText` returns "{" or "[", and the member loop (`GeometryDeserializer.java:32-45`) goes on with the members inside that value.
  - A "coordinates" value that is not an array: `parseArray` (`:68-78`) takes the tokens after it as elements.
  - A "geometries" value that is not an array: `parseGeometries` (`:80-87`) calls `deserialize` from the wrong position.
  - A "geometries" element that is not an object: the same misplaced call happens, and at the end of the input the member loop never meets the closing brace.
- GeoJsonReader.ReadGeometry: a fifth valid JSON input of the same kind, a geometry value that is a string, a number or an array, reads as `Malformed` (so does `Decoded`). Jackson hands any value other than null to `deserialize`, whose member loop (`GeometryDeserializer.java:32-45`) then reads the enclosing object's members. For `{"boundary": "x", "deliverySlotId": 1}` it takes `deliverySlotId` as a member and stops at the request's closing brace. It returns null, since no "type" was read, and the request is read on out of step.
- GeoJsonReader.RingOk: follows the ring rule of JTS 1.18 and later, which accept an empty ring or a closed one of at least 3 points; earlier releases demanded 4. No build file is among the model's sources, so the JTS version is not pinned. Spring Boot 4 and Jackson 3, which `GeometryDeserializer.java:14` names, come with a JTS 1.2x release. That JTS 1.2x accepts 3 points is not confirmed here.
- Common.ToLower: lower-cases ASCII letters only; `String.toLowerCase` also maps other Unicode letters.
- AddressZones.DeliveryAddressService.ApplyChanges: the zone set on the address is some active zone containing the point; the source takes the first row of an unordered SQL result, which is no more specific.
- TemplateForm.ToNumber: JavaScript's `Number` is modelled on the texts the time input produces (decimal digits or empty). Signs, spaces, decimals and exponents read as NaN here.
- ReservationPicker.AddressChange: ids typed in the form are numbers; a zone id 0, falsy in JavaScript, finds no zone, as in the source.
- The other front-end pages (customers, registration, login, delivery slots list) and the session context: they display data or call the API without logic of their own.
- Map rendering (Leaflet), form state handling in React, and API calls: the front-end helpers are modelled as functions of their inputs.
