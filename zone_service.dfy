/** ZoneCoverageService: the delivery zones. A zone's boundary must be a non-empty, valid
    polygon; its location is always the boundary's centroid; a zone may be bound to one
    delivery slot, which must exist when the zone is saved. */
module ZoneTable {
  import opened Common
  import opened Geometry
  import opened Entities
  import opened Repositories

  /** The body of a create or update request; the boundary is any geometry the GeoJSON
      reader produced. */
  datatype ZoneCoverageRequest = ZoneCoverageRequest(
    name: string,
    comunaId: Option<Id>,
    commune: string,
    region: string,
    locality: Option<string>,
    postalCode: Option<string>,
    deliverySlotId: Option<Id>,
    maxCapacity: Option<int>,
    boundary: Geometry,
    isActive: Option<bool>)

  const ZoneNotFound := NotFound("zone coverage")
  const SlotNotFound := NotFound("delivery slot")
  const NotAPolygon := InvalidArgument("boundary must be a GeoJSON polygon")
  const InvalidPolygon := InvalidArgument("boundary must be a valid polygon")

  /** `toPolygon`: only a polygon is accepted, and only when it is non-empty and valid;
      validity is the JTS `isValid` check, given as a parameter. */
  function ToPolygon(boundary: Geometry, isValid: PolygonShape -> bool): (r: Result<PolygonShape>)
    ensures !boundary.Polygon? ==> r == Failure(NotAPolygon)
    ensures boundary.Polygon? && (boundary.shape.IsEmpty() || !isValid(boundary.shape)) ==> r == Failure(InvalidPolygon)
    ensures r.Success? <==> boundary.Polygon? && !boundary.shape.IsEmpty() && isValid(boundary.shape)
    ensures r.Success? ==> r.value == boundary.shape
  {
    if !boundary.Polygon? then Failure(NotAPolygon)
    else if boundary.shape.IsEmpty() || !isValid(boundary.shape) then Failure(InvalidPolygon)
    else Success(boundary.shape)
  }

  /** `validateDeliverySlot`: no slot is fine; a named slot must exist. */
  function ValidateDeliverySlot(slots: map<Id, DeliverySlot>, deliverySlotId: Option<Id>): (r: Outcome)
    ensures r.Pass? <==> deliverySlotId.None? || deliverySlotId.value in slots
    ensures r.Fail? ==> r.error == SlotNotFound
  {
    if deliverySlotId.Some? && deliverySlotId.value !in slots then Fail(SlotNotFound) else Pass
  }

  /** `applyChanges`: the boundary checked first; then trimmed text, blank optional text
      dropped, a null capacity read as 0, a null isActive read as true, and the location
      set to the boundary's centroid (JTS `getCentroid`, given as a parameter). */
  function ApplyZoneChanges(entity: ZoneCoverage, request: ZoneCoverageRequest,
                            isValid: PolygonShape -> bool, centroid: PolygonShape -> Coordinate)
    : (r: Result<ZoneCoverage>)
    ensures r.Failure? <==> ToPolygon(request.boundary, isValid).Failure?
    ensures r.Failure? ==> r.error == ToPolygon(request.boundary, isValid).error
    ensures r.Success? ==>
      && r.value.id == entity.id
      && r.value.boundary == Some(request.boundary.shape)
      && r.value.location == Some(centroid(request.boundary.shape))
      && r.value.name == Some(Trim(request.name))
      && r.value.commune == Some(Trim(request.commune))
      && r.value.region == Some(Trim(request.region))
      && r.value.locality == NormalizeOptional(request.locality)
      && r.value.postalCode == NormalizeOptional(request.postalCode)
      && r.value.comunaId == request.comunaId
      && r.value.deliverySlotId == request.deliverySlotId
      && r.value.maxCapacity == (if request.maxCapacity.Some? then request.maxCapacity.value else 0)
      && (r.value.isActive <==> request.isActive != Some(false))
  {
    var polygon :- ToPolygon(request.boundary, isValid);
    Success(entity.(name := NormalizeRequired(Some(request.name)),
                    comunaId := request.comunaId,
                    commune := NormalizeRequired(Some(request.commune)),
                    region := NormalizeRequired(Some(request.region)),
                    locality := NormalizeOptional(request.locality),
                    postalCode := NormalizeOptional(request.postalCode),
                    deliverySlotId := request.deliverySlotId,
                    maxCapacity := if request.maxCapacity.Some? then request.maxCapacity.value else 0,
                    boundary := Some(polygon),
                    location := Some(centroid(polygon)),
                    isActive := if request.isActive.Some? then request.isActive.value else true))
  }

  /** A zone as the service leaves it: a non-empty valid boundary whose centroid is the
      zone's location. */
  predicate WellFormedZone(zone: ZoneCoverage, isValid: PolygonShape -> bool, centroid: PolygonShape -> Coordinate) {
    && zone.boundary.Some?
    && !zone.boundary.value.IsEmpty()
    && isValid(zone.boundary.value)
    && zone.location == Some(centroid(zone.boundary.value))
  }

  /** Whatever the request, a zone `applyChanges` produces is well formed: the location
      comes from the boundary and from nothing else. */
  lemma AppliedZoneWellFormed(entity: ZoneCoverage, request: ZoneCoverageRequest,
                              isValid: PolygonShape -> bool, centroid: PolygonShape -> Coordinate)
    ensures var r := ApplyZoneChanges(entity, request, isValid, centroid);
            r.Success? ==> WellFormedZone(r.value, isValid, centroid)
  {
  }

  ghost predicate WellFormedZones(rows: map<Id, ZoneCoverage>, isValid: PolygonShape -> bool,
                                  centroid: PolygonShape -> Coordinate) {
    forall id | id in rows :: WellFormedZone(rows[id], isValid, centroid)
  }

  class ZoneCoverageService {
    const zones: ZoneCoverageRepository
    const slots: DeliverySlotRepository

    ghost predicate Valid()
      reads this, zones, slots
    {
      zones.Valid() && slots.Valid()
    }

    constructor (zones: ZoneCoverageRepository, slots: DeliverySlotRepository)
      ensures this.zones == zones && this.slots == slots
    {
      this.zones := zones;
      this.slots := slots;
    }

    /** `create`: the bound slot is checked before the boundary. */
    method Create(request: ZoneCoverageRequest, isValid: PolygonShape -> bool, centroid: PolygonShape -> Coordinate)
      returns (result: Result<ZoneCoverage>)
      requires Valid()
      modifies zones
      ensures Valid()
      ensures ValidateDeliverySlot(slots.rows, request.deliverySlotId).Fail? ==> result == Failure(SlotNotFound)
      ensures ValidateDeliverySlot(slots.rows, request.deliverySlotId).Pass?
              && ToPolygon(request.boundary, isValid).Failure?
              ==> result == Failure(ToPolygon(request.boundary, isValid).error)
      ensures ValidateDeliverySlot(slots.rows, request.deliverySlotId).Pass?
              && ToPolygon(request.boundary, isValid).Success?
              ==> result.Success?
      ensures result.Failure? ==> zones.rows == old(zones.rows)
      ensures result.Success? ==>
        && result.value.id !in old(zones.rows)
        && ApplyZoneChanges(result.value, request, isValid, centroid) == Success(result.value)
        && zones.rows == old(zones.rows)[result.value.id := result.value]
      ensures WellFormedZones(old(zones.rows), isValid, centroid) ==> WellFormedZones(zones.rows, isValid, centroid)
    {
      var slotCheck := ValidateDeliverySlot(slots.rows, request.deliverySlotId);
      if slotCheck.Fail? {
        return Failure(slotCheck.error);
      }
      var blank := ZoneCoverage(0, None, None, None, None, None, None, None, 0, None, None, false);
      var applied := ApplyZoneChanges(blank, request, isValid, centroid);
      if applied.Failure? {
        return Failure(applied.error);
      }
      AppliedZoneWellFormed(blank, request, isValid, centroid);
      var saved := zones.Insert(applied.value);
      result := Success(saved);
    }

    /** `update`: the zone must exist; then the same checks as `create`. */
    method Update(id: Id, request: ZoneCoverageRequest, isValid: PolygonShape -> bool,
                  centroid: PolygonShape -> Coordinate)
      returns (result: Result<ZoneCoverage>)
      requires Valid()
      modifies zones
      ensures Valid()
      ensures id !in old(zones.rows) ==> result == Failure(ZoneNotFound)
      ensures id in old(zones.rows) && ValidateDeliverySlot(slots.rows, request.deliverySlotId).Fail?
              ==> result == Failure(SlotNotFound)
      ensures id in old(zones.rows) && ValidateDeliverySlot(slots.rows, request.deliverySlotId).Pass?
              && ToPolygon(request.boundary, isValid).Failure?
              ==> result == Failure(ToPolygon(request.boundary, isValid).error)
      ensures id in old(zones.rows) && ValidateDeliverySlot(slots.rows, request.deliverySlotId).Pass?
              && ToPolygon(request.boundary, isValid).Success?
              ==> result.Success?
      ensures result.Failure? ==> zones.rows == old(zones.rows)
      ensures result.Success? ==>
        && id in old(zones.rows)
        && ApplyZoneChanges(old(zones.rows)[id], request, isValid, centroid) == Success(result.value)
        && zones.rows == old(zones.rows)[id := result.value]
      ensures WellFormedZones(old(zones.rows), isValid, centroid) ==> WellFormedZones(zones.rows, isValid, centroid)
    {
      if id !in zones.rows {
        return Failure(ZoneNotFound);
      }
      var entity := zones.rows[id];
      var slotCheck := ValidateDeliverySlot(slots.rows, request.deliverySlotId);
      if slotCheck.Fail? {
        return Failure(slotCheck.error);
      }
      var applied := ApplyZoneChanges(entity, request, isValid, centroid);
      if applied.Failure? {
        return Failure(applied.error);
      }
      AppliedZoneWellFormed(entity, request, isValid, centroid);
      zones.Update(applied.value);
      result := Success(applied.value);
    }

    /** `delete`. */
    method Delete(id: Id) returns (r: Outcome)
      requires Valid()
      modifies zones
      ensures Valid()
      ensures id !in old(zones.rows) ==> r == Fail(ZoneNotFound) && zones.rows == old(zones.rows)
      ensures id in old(zones.rows) ==> r.Pass? && zones.rows == old(zones.rows) - {id}
    {
      if id !in zones.rows {
        return Fail(ZoneNotFound);
      }
      zones.Delete(id);
      r := Pass;
    }
  }
}
