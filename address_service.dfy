/** DeliveryAddressService: a customer's delivery addresses. An address given with
    coordinates is placed in the first active zone whose boundary contains it, and is
    refused when no zone does; an address without coordinates has neither a location
    nor a zone. */
module AddressZones {
  import opened Common
  import opened Geometry
  import opened Entities
  import opened Repositories

  /** The body of a create or update request. */
  datatype DeliveryAddressRequest = DeliveryAddressRequest(
    customerId: Id,
    comunaId: Option<Id>,
    street: Option<string>,
    locality: Option<string>,
    commune: Option<string>,
    region: Option<string>,
    postalCode: Option<string>,
    latitude: Option<real>,
    longitude: Option<real>,
    isDefault: Option<bool>)

  datatype DeliveryAddressResponse = DeliveryAddressResponse(
    id: Id,
    customerId: Id,
    zoneCoverageId: Option<Id>,
    zoneCoverageName: Option<string>,
    comunaId: Option<Id>,
    street: Option<string>,
    locality: Option<string>,
    commune: Option<string>,
    region: Option<string>,
    postalCode: Option<string>,
    latitude: Option<real>,
    longitude: Option<real>,
    isDefault: bool,
    createdAt: Instant)

  const CustomerNotFound := NotFound("customer")
  const AddressNotFound := NotFound("delivery address")
  const OutsideCoverage := InvalidArgument("location is not inside any active zone coverage")

  /** The fields `applyChanges` copies from the request: trimmed text, a blank postal
      code dropped, and a missing isDefault read as false. */
  function WithRequestFields(entity: DeliveryAddress, request: DeliveryAddressRequest): (r: DeliveryAddress)
    ensures r.id == entity.id && r.createdAt == entity.createdAt
    ensures r.location == entity.location && r.zoneCoverageId == entity.zoneCoverageId
    ensures r.customerId == request.customerId && r.comunaId == request.comunaId
    ensures r.street == NormalizeRequired(request.street) && r.locality == NormalizeRequired(request.locality)
    ensures r.commune == NormalizeRequired(request.commune) && r.region == NormalizeRequired(request.region)
    ensures r.postalCode == NormalizeOptional(request.postalCode)
    ensures r.isDefault <==> request.isDefault == Some(true)
  {
    entity.(customerId := request.customerId,
            comunaId := request.comunaId,
            street := NormalizeRequired(request.street),
            locality := NormalizeRequired(request.locality),
            commune := NormalizeRequired(request.commune),
            region := NormalizeRequired(request.region),
            postalCode := NormalizeOptional(request.postalCode),
            isDefault := if request.isDefault.Some? then request.isDefault.value else false)
  }

  /** Some active zone with a boundary contains the point. */
  predicate Covered(zones: map<Id, ZoneCoverage>, point: Coordinate, contains: (PolygonShape, Coordinate) -> bool) {
    exists id | id in zones :: CoversPoint(zones[id], point, contains)
  }

  /** The address can be placed: it gives no complete coordinate pair, or some active
      zone contains its point. */
  predicate Placeable(zones: map<Id, ZoneCoverage>, request: DeliveryAddressRequest,
                      contains: (PolygonShape, Coordinate) -> bool) {
    request.latitude.None? || request.longitude.None?
    || Covered(zones, PointAt(request.latitude.value, request.longitude.value), contains)
  }

  /** A row as `applyChanges` leaves it: every request field copied, and either no
      location and no zone, or the request's point and a zone that covers it. */
  predicate PlacedFrom(address: DeliveryAddress, zones: map<Id, ZoneCoverage>, request: DeliveryAddressRequest,
                       contains: (PolygonShape, Coordinate) -> bool) {
    && address == WithRequestFields(address, request)
    && (request.latitude.None? || request.longitude.None? ==>
          address.location.None? && address.zoneCoverageId.None?)
    && (request.latitude.Some? && request.longitude.Some? ==>
          && address.location == Some(PointAt(request.latitude.value, request.longitude.value))
          && address.zoneCoverageId.Some?
          && address.zoneCoverageId.value in zones
          && CoversPoint(zones[address.zoneCoverageId.value], address.location.value, contains))
  }

  /** `DeliveryAddressResponse.fromEntity(entity, zoneName)`: the point's y is the latitude
      and its x the longitude. */
  function AddressResponseFromEntity(entity: DeliveryAddress, zoneName: Option<string>): (r: DeliveryAddressResponse)
    ensures r.id == entity.id && r.customerId == entity.customerId && r.zoneCoverageId == entity.zoneCoverageId
    ensures r.zoneCoverageName == zoneName
    ensures r.comunaId == entity.comunaId && r.street == entity.street && r.locality == entity.locality
    ensures r.commune == entity.commune && r.region == entity.region && r.postalCode == entity.postalCode
    ensures r.isDefault == entity.isDefault && r.createdAt == entity.createdAt
    ensures entity.location.None? ==> r.latitude.None? && r.longitude.None?
    ensures entity.location.Some? ==> r.latitude == Some(entity.location.value.y) && r.longitude == Some(entity.location.value.x)
  {
    var latitude := if entity.location.Some? then Some(entity.location.value.y) else None;
    var longitude := if entity.location.Some? then Some(entity.location.value.x) else None;
    DeliveryAddressResponse(entity.id, entity.customerId, entity.zoneCoverageId, zoneName, entity.comunaId,
                            entity.street, entity.locality, entity.commune, entity.region, entity.postalCode,
                            latitude, longitude, entity.isDefault, entity.createdAt)
  }

  /** The one-argument `fromEntity`: no zone name. */
  function AddressResponseFromEntityWithoutZone(entity: DeliveryAddress): (r: DeliveryAddressResponse)
    ensures r.zoneCoverageName.None?
    ensures r == AddressResponseFromEntity(entity, None)
  {
    AddressResponseFromEntity(entity, None)
  }

  /** The point built from a latitude and a longitude is read back as the same pair. */
  lemma CoordinatesRoundTrip(entity: DeliveryAddress, latitude: real, longitude: real, zoneName: Option<string>)
    ensures var r := AddressResponseFromEntity(entity.(location := Some(PointAt(latitude, longitude))), zoneName);
            r.latitude == Some(latitude) && r.longitude == Some(longitude)
  {
  }

  /** `toResponseWithZoneName`: the name of the address's zone, if the zone still exists. */
  function ZoneName(zones: map<Id, ZoneCoverage>, address: DeliveryAddress): (name: Option<string>)
    ensures address.zoneCoverageId.None? || address.zoneCoverageId.value !in zones ==> name.None?
    ensures address.zoneCoverageId.Some? && address.zoneCoverageId.value in zones ==>
            name == zones[address.zoneCoverageId.value].name
  {
    if address.zoneCoverageId.Some? && address.zoneCoverageId.value in zones
    then zones[address.zoneCoverageId.value].name
    else None
  }

  class DeliveryAddressService {
    const addresses: DeliveryAddressRepository
    const customers: CustomerRepository
    const zones: ZoneCoverageRepository

    ghost predicate Valid()
      reads this, addresses, customers, zones
    {
      addresses.Valid() && customers.Valid() && zones.Valid()
    }

    constructor (addresses: DeliveryAddressRepository, customers: CustomerRepository, zones: ZoneCoverageRepository)
      ensures this.addresses == addresses && this.customers == customers && this.zones == zones
    {
      this.addresses := addresses;
      this.customers := customers;
      this.zones := zones;
    }

    /** `applyChanges`: copies the request and places the address in a zone. With both
        coordinates, the location is the point (longitude, latitude) and the zone is the
        first one the resolver returns; with either coordinate missing, both are cleared. */
    method ApplyChanges(entity: DeliveryAddress, request: DeliveryAddressRequest,
                        contains: (PolygonShape, Coordinate) -> bool)
      returns (result: Result<DeliveryAddress>)
      requires Valid()
      ensures request.latitude.None? || request.longitude.None? ==>
        result == Success(WithRequestFields(entity, request).(location := None, zoneCoverageId := None))
      ensures request.latitude.Some? && request.longitude.Some? ==>
        var point := PointAt(request.latitude.value, request.longitude.value);
        && (!Covered(zones.rows, point, contains) ==> result == Failure(OutsideCoverage))
        && (Covered(zones.rows, point, contains) ==>
              result.Success?
              && result.value == WithRequestFields(entity, request).(location := Some(point),
                                                                     zoneCoverageId := result.value.zoneCoverageId)
              && result.value.zoneCoverageId.Some?
              && result.value.zoneCoverageId.value in zones.rows
              && CoversPoint(zones.rows[result.value.zoneCoverageId.value], point, contains))
      ensures result.Success? ==> (result.value.zoneCoverageId.Some? <==> result.value.location.Some?)
      ensures result.Success? <==> Placeable(zones.rows, request, contains)
      ensures result.Success? ==>
        && PlacedFrom(result.value, zones.rows, request, contains)
        && result.value.id == entity.id && result.value.createdAt == entity.createdAt
    {
      var updated := WithRequestFields(entity, request);
      if request.latitude.Some? && request.longitude.Some? {
        var point := PointAt(request.latitude.value, request.longitude.value);
        var matching := zones.FindByPointInsideBoundary(point, contains);
        if |matching| == 0 {
          return Failure(OutsideCoverage);
        }
        result := Success(updated.(location := Some(point), zoneCoverageId := Some(matching[0].id)));
      } else {
        result := Success(updated.(location := None, zoneCoverageId := None));
      }
    }

    function ToResponseWithZoneName(address: DeliveryAddress): DeliveryAddressResponse
      reads zones
    {
      AddressResponseFromEntity(address, ZoneName(zones.rows, address))
    }

    /** `create`: the customer must exist; the address is stamped with its creation time. */
    method Create(request: DeliveryAddressRequest, now: Instant, contains: (PolygonShape, Coordinate) -> bool)
      returns (result: Result<DeliveryAddressResponse>)
      requires Valid()
      modifies addresses
      ensures Valid()
      ensures request.customerId !in customers.rows ==> result == Failure(CustomerNotFound)
      ensures request.customerId in customers.rows ==>
        && (result.Success? <==> Placeable(zones.rows, request, contains))
        && (result.Failure? ==> result == Failure(OutsideCoverage))
      ensures result.Failure? ==> addresses.rows == old(addresses.rows)
      ensures result.Success? ==>
        request.customerId in customers.rows
        && exists saved: DeliveryAddress | saved.id !in old(addresses.rows) ::
             addresses.rows == old(addresses.rows)[saved.id := saved]
             && PlacedFrom(saved, zones.rows, request, contains)
             && saved.customerId == request.customerId && saved.createdAt == now
             && result.value == ToResponseWithZoneName(saved)
      ensures result.Success? && request.latitude.Some? && request.longitude.Some? ==>
        result.value.latitude == request.latitude && result.value.longitude == request.longitude
      ensures result.Success? ==> (result.value.zoneCoverageId.Some? <==> result.value.latitude.Some?)
    {
      if request.customerId !in customers.rows {
        return Failure(CustomerNotFound);
      }
      var blank := DeliveryAddress(0, 0, None, None, None, None, None, None, None, None, false, now);
      var applied := ApplyChanges(blank, request, contains);
      if applied.Failure? {
        return Failure(applied.error);
      }
      var saved := addresses.Insert(applied.value);
      result := Success(ToResponseWithZoneName(saved));
    }

    /** `update`: the address must exist; its owner is not re-checked. */
    method Update(id: Id, request: DeliveryAddressRequest, contains: (PolygonShape, Coordinate) -> bool)
      returns (result: Result<DeliveryAddressResponse>)
      requires Valid()
      modifies addresses
      ensures Valid()
      ensures id !in old(addresses.rows) ==> result == Failure(AddressNotFound)
      ensures id in old(addresses.rows) ==>
        && (result.Success? <==> Placeable(zones.rows, request, contains))
        && (result.Failure? ==> result == Failure(OutsideCoverage))
      ensures result.Failure? ==> addresses.rows == old(addresses.rows)
      ensures result.Success? ==>
        id in old(addresses.rows)
        && exists saved: DeliveryAddress | saved.id == id ::
             addresses.rows == old(addresses.rows)[id := saved]
             && PlacedFrom(saved, zones.rows, request, contains)
             && saved.createdAt == old(addresses.rows)[id].createdAt
             && saved.customerId == request.customerId
             && result.value == ToResponseWithZoneName(saved)
      ensures result.Success? && request.latitude.Some? && request.longitude.Some? ==>
        result.value.latitude == request.latitude && result.value.longitude == request.longitude
      ensures result.Success? ==> (result.value.zoneCoverageId.Some? <==> result.value.latitude.Some?)
    {
      if id !in addresses.rows {
        return Failure(AddressNotFound);
      }
      var applied := ApplyChanges(addresses.rows[id], request, contains);
      if applied.Failure? {
        return Failure(applied.error);
      }
      addresses.Update(applied.value);
      result := Success(ToResponseWithZoneName(applied.value));
    }

    /** `delete`. */
    method Delete(id: Id) returns (r: Outcome)
      requires Valid()
      modifies addresses
      ensures Valid()
      ensures id !in old(addresses.rows) ==> r == Fail(AddressNotFound) && addresses.rows == old(addresses.rows)
      ensures id in old(addresses.rows) ==> r.Pass? && addresses.rows == old(addresses.rows) - {id}
    {
      if id !in addresses.rows {
        return Fail(AddressNotFound);
      }
      addresses.Delete(id);
      r := Pass;
    }
  }
}
