/** The two ways the front end writes a map point: Leaflet's `{lat, lng}` object and the
    GeoJSON position `[lng, lat]` (section 3.1.1 of RFC 7946: longitude first). */
module MapPoints {
  import opened Common

  /** Leaflet's `LatLngLiteral`. */
  datatype LatLng = LatLng(lat: real, lng: real)

  /** A GeoJSON position as the front end reads and writes it: `[lng, lat]`. */
  datatype Position = Position(lng: real, lat: real)

  /** The `GeoJsonPolygon` the zone API exchanges: a type name and a list of rings. */
  datatype GeoJsonPolygon = GeoJsonPolygon(typeName: string, coordinates: seq<seq<Position>>)

  /** `(coord) => ({ lat: coord[1], lng: coord[0] })`. */
  function ToLatLng(p: Position): LatLng {
    LatLng(p.lat, p.lng)
  }

  /** `(point) => [point.lng, point.lat]`. */
  function ToPosition(p: LatLng): Position {
    Position(p.lng, p.lat)
  }

  /** The two conversions are inverse to each other, so both preserve (in)equality. */
  lemma SwapRoundTrip(p: LatLng, q: Position)
    ensures ToLatLng(ToPosition(p)) == p && ToPosition(ToLatLng(q)) == q
    ensures forall a: LatLng, b: LatLng :: ToPosition(a) == ToPosition(b) <==> a == b
  {
  }

  /** A ring, point by point. */
  function ToLatLngs(ring: seq<Position>): (points: seq<LatLng>)
    ensures |points| == |ring|
    ensures forall i | 0 <= i < |ring| :: points[i] == ToLatLng(ring[i])
  {
    seq(|ring|, i requires 0 <= i < |ring| => ToLatLng(ring[i]))
  }

  function ToPositions(points: seq<LatLng>): (ring: seq<Position>)
    ensures |ring| == |points|
    ensures forall i | 0 <= i < |points| :: ring[i] == ToPosition(points[i])
  {
    seq(|points|, i requires 0 <= i < |points| => ToPosition(points[i]))
  }

  /** `boundary.coordinates[0]` when the boundary is a polygon with at least one ring. */
  function FirstRing(boundary: Option<GeoJsonPolygon>): Option<seq<Position>> {
    if boundary.None? || boundary.value.typeName != "Polygon" || boundary.value.coordinates == [] then None
    else Some(boundary.value.coordinates[0])
  }
}
