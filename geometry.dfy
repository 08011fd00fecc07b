/** The JTS geometry values the backend stores and exchanges, as a tagged union.
    Coordinates are carried, never computed on: they are compared for equality only. */
module Geometry {
  import opened Common

  /** A JTS `Coordinate`: x (longitude), y (latitude) and z, which JTS holds as NaN when absent. */
  datatype Coordinate = Coordinate(x: real, y: real, z: Option<real>)

  /** The rings of a JTS `Polygon`: the exterior ring (the shell) and the interior rings (the holes). */
  datatype PolygonShape = PolygonShape(shell: seq<Coordinate>, holes: seq<seq<Coordinate>>) {
    /** `Polygon.isEmpty()`: a polygon is empty when its shell has no points. */
    predicate IsEmpty() { shell == [] }
  }

  /** The seven geometry types of section 3.1 of RFC 7946, one variant per JTS class. */
  datatype Geometry =
    | Point(coordinate: Coordinate)
    | MultiPoint(points: seq<Coordinate>)
    | LineString(coordinates: seq<Coordinate>)
    | MultiLineString(lines: seq<seq<Coordinate>>)
    | Polygon(shape: PolygonShape)
    | MultiPolygon(polygons: seq<PolygonShape>)
    | GeometryCollection(members: seq<Geometry>)

  /** `geometryFactory.createPoint(new Coordinate(longitude, latitude))`: x is the longitude, y the latitude. */
  function PointAt(latitude: real, longitude: real): Coordinate
  {
    Coordinate(longitude, latitude, None)
  }
}
