/** The zone page's conversion between the points clicked on the map and the boundary
    polygon sent to the zone API. The editor shows an open ring; the API holds a closed
    one (section 3.1.6 of RFC 7946: the first and last positions are equal). */
module ZoneBoundaryEditor {
  import opened Common
  import opened MapPoints

  /** `geoJsonToPoints`: the first ring as map points, without its closing point. Nothing
      to show for no boundary, a non-polygon, or a polygon without rings. */
  function GeoJsonToPoints(boundary: Option<GeoJsonPolygon>): (points: seq<LatLng>)
    ensures FirstRing(boundary).None? ==> points == []
    ensures FirstRing(boundary).Some? ==>
      var ring := FirstRing(boundary).value;
      && |points| <= |ring|
      && (forall i | 0 <= i < |points| :: points[i] == ToLatLng(ring[i]))
      && (|points| == |ring| - 1 <==> |ring| >= 2 && ring[0] == ring[|ring| - 1])
      && (|points| == |ring| <==> !(|ring| >= 2 && ring[0] == ring[|ring| - 1]))
  {
    if FirstRing(boundary).None? then []
    else
      var raw := ToLatLngs(FirstRing(boundary).value);
      if |raw| >= 2 && raw[0].lat == raw[|raw| - 1].lat && raw[0].lng == raw[|raw| - 1].lng then
        raw[..|raw| - 1]
      else raw
  }

  /** The ring `pointsToGeoJson` sends: every point as `[lng, lat]`, then the first
      position again when the last one differs from it. */
  function ClosedRing(points: seq<LatLng>): (ring: seq<Position>)
    ensures |points| <= |ring| && ring[..|points|] == ToPositions(points)
    ensures |ring| == |points| + 1 <==> points != [] && points[0] != points[|points| - 1]
    ensures |ring| == |points| <==> points == [] || points[0] == points[|points| - 1]
    ensures ring == [] || ring[0] == ring[|ring| - 1]
  {
    var ring := ToPositions(points);
    SwapRoundTrip(LatLng(0.0, 0.0), Position(0.0, 0.0));
    if |ring| > 0 && (ring[0].lng != ring[|ring| - 1].lng || ring[0].lat != ring[|ring| - 1].lat) then
      ring + [ring[0]]
    else ring
  }

  /** `pointsToGeoJson`: the ring is built, closed in place when needed, and wrapped as
      the only ring of a polygon. */
  method PointsToGeoJson(points: seq<LatLng>) returns (polygon: GeoJsonPolygon)
    ensures polygon.typeName == "Polygon" && polygon.coordinates == [ClosedRing(points)]
    ensures points == [] ==> polygon.coordinates == [[]]
  {
    var ring := ToPositions(points);
    if |ring| > 0 {
      var first := ring[0];
      var last := ring[|ring| - 1];
      if first.lng != last.lng || first.lat != last.lat {
        ring := ring + [Position(first.lng, first.lat)];
      }
    }
    polygon := GeoJsonPolygon("Polygon", [ring]);
  }

  /** Reading back what the editor sent gives the clicked points exactly when the user
      did not close the ring by clicking the first point again; if they did, the
      repeated point is dropped. */
  lemma {:induction false} EditorRoundTrip(points: seq<LatLng>)
    ensures var back := GeoJsonToPoints(Some(GeoJsonPolygon("Polygon", [ClosedRing(points)])));
            && (back == points <==> |points| < 2 || points[0] != points[|points| - 1])
            && (|points| >= 2 && points[0] == points[|points| - 1] ==> back == points[..|points| - 1])
  {
    var ring := ClosedRing(points);
    var boundary := Some(GeoJsonPolygon("Polygon", [ring]));
    assert FirstRing(boundary) == Some(ring);
    var back := GeoJsonToPoints(boundary);
    SwapRoundTrip(LatLng(0.0, 0.0), Position(0.0, 0.0));
    if |points| >= 2 && points[0] == points[|points| - 1] {
      assert ring == ToPositions(points);
      assert |back| == |points| - 1;
      assert back == points[..|points| - 1];
      assert back != points;
    } else if points != [] && points[0] != points[|points| - 1] {
      assert ring[0] == ToPosition(points[0]);
      assert |back| == |points|;
      assert back == points;
    } else {
      assert ring == ToPositions(points);
      assert |back| == |points|;
      assert back == points;
    }
  }
}
