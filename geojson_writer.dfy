/** GeometrySerializer: writes a JTS geometry as a GeoJSON geometry object (section 3.1
    of RFC 7946), streaming the tokens to a generator. */
module GeoJsonWriter {
  import opened Common
  import opened Geometry
  import opened JsonTokens

  /** The "type" member written for each kind. Each multi-kind has a name of its own:
      it is never written as a GeometryCollection. */
  function TypeName(g: Geometry): string {
    match g
    case Point(_) => "Point"
    case MultiPoint(_) => "MultiPoint"
    case LineString(_) => "LineString"
    case MultiLineString(_) => "MultiLineString"
    case Polygon(_) => "Polygon"
    case MultiPolygon(_) => "MultiPolygon"
    case GeometryCollection(_) => "GeometryCollection"
  }

  /** Two geometries get the same type name exactly when they are of the same kind. */
  lemma TypeNameIdentifiesKind(a: Geometry, b: Geometry)
    ensures TypeName(a) == TypeName(b) <==>
      (a.Point? && b.Point?) || (a.MultiPoint? && b.MultiPoint?) || (a.LineString? && b.LineString?)
      || (a.MultiLineString? && b.MultiLineString?) || (a.Polygon? && b.Polygon?)
      || (a.MultiPolygon? && b.MultiPolygon?) || (a.GeometryCollection? && b.GeometryCollection?)
  {
  }

  /** A position (section 3.1.1 of RFC 7946): x, then y, then z only when the
      coordinate has one. */
  function PositionValue(c: Coordinate): (v: ArrayValue)
    ensures v.Array? && |v.items| == (if c.z.Some? then 3 else 2)
    ensures v.items[0] == Number(c.x) && v.items[1] == Number(c.y)
    ensures c.z.Some? ==> v.items[2] == Number(c.z.value)
  {
    Array([Number(c.x), Number(c.y)] + (if c.z.Some? then [Number(c.z.value)] else []))
  }

  /** An array of positions, in order. */
  function PositionsValue(cs: seq<Coordinate>): (v: ArrayValue)
    ensures v.Array? && |v.items| == |cs|
    ensures forall i | 0 <= i < |cs| :: v.items[i] == PositionValue(cs[i])
  {
    Array(seq(|cs|, i requires 0 <= i < |cs| => PositionValue(cs[i])))
  }

  /** A polygon's coordinates (section 3.1.6 of RFC 7946): the exterior ring, then the
      interior rings in order. */
  function RingsValue(p: PolygonShape): (v: ArrayValue)
    ensures v.Array? && |v.items| == 1 + |p.holes|
    ensures v.items[0] == PositionsValue(p.shell)
    ensures forall i | 0 <= i < |p.holes| :: v.items[i + 1] == PositionsValue(p.holes[i])
  {
    Array([PositionsValue(p.shell)] + seq(|p.holes|, i requires 0 <= i < |p.holes| => PositionsValue(p.holes[i])))
  }

  /** The "coordinates" member of every kind but GeometryCollection: one array per
      member of a multi-kind, in member order (sections 3.1.2 to 3.1.7 of RFC 7946). */
  function CoordinatesValue(g: Geometry): (v: ArrayValue)
    requires !g.GeometryCollection?
    ensures v.Array?
    ensures g.MultiLineString? ==>
      |v.items| == |g.lines| && forall i | 0 <= i < |g.lines| :: v.items[i] == PositionsValue(g.lines[i])
    ensures g.MultiPolygon? ==>
      |v.items| == |g.polygons| && forall i | 0 <= i < |g.polygons| :: v.items[i] == RingsValue(g.polygons[i])
  {
    match g
    case Point(c) => PositionValue(c)
    case MultiPoint(points) => PositionsValue(points)
    case LineString(cs) => PositionsValue(cs)
    case MultiLineString(lines) => Array(seq(|lines|, i requires 0 <= i < |lines| => PositionsValue(lines[i])))
    case Polygon(shape) => RingsValue(shape)
    case MultiPolygon(polygons) => Array(seq(|polygons|, i requires 0 <= i < |polygons| => RingsValue(polygons[i])))
  }

  /** The tokens `writeGeometry` produces: one object around the geometry's members. */
  function GeometryTokens(g: Geometry): seq<Token>
    decreases g, 2
  {
    [StartObject] + MemberTokens(g) + [EndObject]
  }

  /** The members of a geometry object: "type" first, then "geometries" for a
      collection and "coordinates" for every other kind. */
  function MemberTokens(g: Geometry): seq<Token>
    decreases g, 1
  {
    [Name("type"), Str(TypeName(g))]
    + (if g.GeometryCollection?
       then [Name("geometries"), StartArray] + MembersTokens(g.members) + [EndArray]
       else [Name("coordinates")] + ValueTokens(CoordinatesValue(g)))
  }

  /** The members of a collection, each written as a geometry, in order (section 3.1.8 of
      RFC 7946). */
  function MembersTokens(gs: seq<Geometry>): seq<Token>
    decreases gs, 0
  {
    if gs == [] then [] else GeometryTokens(gs[0]) + MembersTokens(gs[1..])
  }

  lemma {:induction false} MembersTokensSnoc(gs: seq<Geometry>, g: Geometry)
    ensures MembersTokens(gs + [g]) == MembersTokens(gs) + GeometryTokens(g)
    decreases |gs|
  {
    if gs == [] {
      assert [g][1..] == [];
    } else {
      assert (gs + [g])[1..] == gs[1..] + [g];
      MembersTokensSnoc(gs[1..], g);
    }
  }

  /** `serialize`: a null geometry is the JSON null. */
  function SerializedTokens(g: Option<Geometry>): seq<Token> {
    if g.None? then [Null] else GeometryTokens(g.value)
  }

  /** Every geometry is written as exactly one object that opens with its type member. */
  lemma GeometryIsOneTypedObject(g: Geometry)
    ensures var ts := GeometryTokens(g);
            |ts| >= 5 && ts[0] == StartObject && ts[|ts| - 1] == EndObject
            && ts[1] == Name("type") && ts[2] == Str(TypeName(g))
            && (g.GeometryCollection? <==> ts[3] == Name("geometries"))
            && (!g.GeometryCollection? <==> ts[3] == Name("coordinates"))
  {
  }

  // ---------------------------------------------------------------------------
  // The writer

  /** `writeCoordinate`. */
  method WriteCoordinate(c: Coordinate, gen: JsonGenerator)
    modifies gen
    ensures gen.tokens == old(gen.tokens) + ValueTokens(PositionValue(c))
  {
    gen.WriteStartArray();
    gen.WriteNumber(c.x);
    gen.WriteNumber(c.y);
    if c.z.Some? {
      gen.WriteNumber(c.z.value);
    }
    gen.WriteEndArray();
    var items := PositionValue(c).items;
    assert ItemsTokens(items) == [Num(c.x)] + ItemsTokens(items[1..]);
    assert ItemsTokens(items[1..]) == [Num(c.y)] + ItemsTokens(items[2..]);
    if c.z.Some? {
      assert ItemsTokens(items[2..]) == [Num(c.z.value)] + ItemsTokens(items[3..]);
    }
  }

  /** `writeCoordinateArray`. */
  method WriteCoordinateArray(cs: seq<Coordinate>, gen: JsonGenerator)
    modifies gen
    ensures gen.tokens == old(gen.tokens) + ValueTokens(PositionsValue(cs))
  {
    gen.WriteStartArray();
    var i := 0;
    while i < |cs|
      invariant 0 <= i <= |cs|
      invariant gen.tokens == old(gen.tokens) + [StartArray] + ItemsTokens(PositionsValue(cs[..i]).items)
    {
      WriteCoordinate(cs[i], gen);
      assert PositionsValue(cs[..i + 1]).items == PositionsValue(cs[..i]).items + [PositionValue(cs[i])];
      ItemsTokensSnoc(PositionsValue(cs[..i]).items, PositionValue(cs[i]));
      i := i + 1;
    }
    gen.WriteEndArray();
    assert cs[..i] == cs;
  }

  lemma RingsValueSnoc(p: PolygonShape, i: nat)
    requires i < |p.holes|
    ensures RingsValue(p.(holes := p.holes[..i + 1])).items
         == RingsValue(p.(holes := p.holes[..i])).items + [PositionsValue(p.holes[i])]
  {
  }

  /** `writePolygonCoordinates`: the exterior ring, then each interior ring. */
  method WritePolygonCoordinates(p: PolygonShape, gen: JsonGenerator)
    modifies gen
    ensures gen.tokens == old(gen.tokens) + ValueTokens(RingsValue(p))
  {
    gen.WriteStartArray();
    WriteCoordinateArray(p.shell, gen);
    assert ItemsTokens([PositionsValue(p.shell)]) == ValueTokens(PositionsValue(p.shell)) + ItemsTokens([]);
    var i := 0;
    while i < |p.holes|
      invariant 0 <= i <= |p.holes|
      invariant gen.tokens == old(gen.tokens) + [StartArray] + ItemsTokens(RingsValue(p.(holes := p.holes[..i])).items)
    {
      WriteCoordinateArray(p.holes[i], gen);
      RingsValueSnoc(p, i);
      ItemsTokensSnoc(RingsValue(p.(holes := p.holes[..i])).items, PositionsValue(p.holes[i]));
      i := i + 1;
    }
    gen.WriteEndArray();
    assert p.(holes := p.holes[..i]) == p;
  }

  /** `writeMultiLineString`'s coordinates: one array per line. */
  method WriteLineArrays(lines: seq<seq<Coordinate>>, gen: JsonGenerator)
    modifies gen
    ensures gen.tokens == old(gen.tokens) + ValueTokens(CoordinatesValue(MultiLineString(lines)))
  {
    gen.WriteStartArray();
    var i := 0;
    while i < |lines|
      invariant 0 <= i <= |lines|
      invariant gen.tokens == old(gen.tokens) + [StartArray] + ItemsTokens(CoordinatesValue(MultiLineString(lines[..i])).items)
    {
      WriteCoordinateArray(lines[i], gen);
      assert CoordinatesValue(MultiLineString(lines[..i + 1])).items
          == CoordinatesValue(MultiLineString(lines[..i])).items + [PositionsValue(lines[i])];
      ItemsTokensSnoc(CoordinatesValue(MultiLineString(lines[..i])).items, PositionsValue(lines[i]));
      i := i + 1;
    }
    gen.WriteEndArray();
    assert lines[..i] == lines;
  }

  /** `writeMultiPolygon`'s coordinates: one polygon's rings per member. */
  method WritePolygonArrays(polygons: seq<PolygonShape>, gen: JsonGenerator)
    modifies gen
    ensures gen.tokens == old(gen.tokens) + ValueTokens(CoordinatesValue(MultiPolygon(polygons)))
  {
    gen.WriteStartArray();
    var i := 0;
    while i < |polygons|
      invariant 0 <= i <= |polygons|
      invariant gen.tokens == old(gen.tokens) + [StartArray] + ItemsTokens(CoordinatesValue(MultiPolygon(polygons[..i])).items)
    {
      WritePolygonCoordinates(polygons[i], gen);
      assert CoordinatesValue(MultiPolygon(polygons[..i + 1])).items
          == CoordinatesValue(MultiPolygon(polygons[..i])).items + [RingsValue(polygons[i])];
      ItemsTokensSnoc(CoordinatesValue(MultiPolygon(polygons[..i])).items, RingsValue(polygons[i]));
      i := i + 1;
    }
    gen.WriteEndArray();
    assert polygons[..i] == polygons;
  }

  /** `writeGeometry`: the object around the members the geometry's kind writes. */
  method WriteGeometry(g: Geometry, gen: JsonGenerator)
    modifies gen
    ensures gen.tokens == old(gen.tokens) + GeometryTokens(g)
    decreases g, 1
  {
    gen.WriteStartObject();
    if g.Point? {
      WritePoint(g, gen);
    } else if g.MultiPoint? {
      WriteMultiPoint(g, gen);
    } else if g.LineString? {
      WriteLineString(g, gen);
    } else if g.MultiLineString? {
      WriteMultiLineString(g, gen);
    } else if g.Polygon? {
      WritePolygon(g, gen);
    } else if g.MultiPolygon? {
      WriteMultiPolygon(g, gen);
    } else {
      WriteGeometryCollection(g, gen);
    }
    gen.WriteEndObject();
  }

  /** `writePoint`. */
  method WritePoint(g: Geometry, gen: JsonGenerator)
    requires g.Point?
    modifies gen
    ensures gen.tokens == old(gen.tokens) + MemberTokens(g)
  {
    gen.WriteStringProperty("type", "Point");
    gen.WriteName("coordinates");
    WriteCoordinate(g.coordinate, gen);
  }

  /** `writeMultiPoint`. */
  method WriteMultiPoint(g: Geometry, gen: JsonGenerator)
    requires g.MultiPoint?
    modifies gen
    ensures gen.tokens == old(gen.tokens) + MemberTokens(g)
  {
    gen.WriteStringProperty("type", "MultiPoint");
    gen.WriteName("coordinates");
    WriteCoordinateArray(g.points, gen);
  }

  /** `writeLineString`. */
  method WriteLineString(g: Geometry, gen: JsonGenerator)
    requires g.LineString?
    modifies gen
    ensures gen.tokens == old(gen.tokens) + MemberTokens(g)
  {
    gen.WriteStringProperty("type", "LineString");
    gen.WriteName("coordinates");
    WriteCoordinateArray(g.coordinates, gen);
  }

  /** `writeMultiLineString`. */
  method WriteMultiLineString(g: Geometry, gen: JsonGenerator)
    requires g.MultiLineString?
    modifies gen
    ensures gen.tokens == old(gen.tokens) + MemberTokens(g)
  {
    gen.WriteStringProperty("type", "MultiLineString");
    gen.WriteName("coordinates");
    WriteLineArrays(g.lines, gen);
  }

  /** `writePolygon`. */
  method WritePolygon(g: Geometry, gen: JsonGenerator)
    requires g.Polygon?
    modifies gen
    ensures gen.tokens == old(gen.tokens) + MemberTokens(g)
  {
    gen.WriteStringProperty("type", "Polygon");
    gen.WriteName("coordinates");
    WritePolygonCoordinates(g.shape, gen);
  }

  /** `writeMultiPolygon`. */
  method WriteMultiPolygon(g: Geometry, gen: JsonGenerator)
    requires g.MultiPolygon?
    modifies gen
    ensures gen.tokens == old(gen.tokens) + MemberTokens(g)
  {
    gen.WriteStringProperty("type", "MultiPolygon");
    gen.WriteName("coordinates");
    WritePolygonArrays(g.polygons, gen);
  }

  /** `writeGeometryCollection`: each member written as a geometry of its own. */
  method WriteGeometryCollection(g: Geometry, gen: JsonGenerator)
    requires g.GeometryCollection?
    modifies gen
    ensures gen.tokens == old(gen.tokens) + MemberTokens(g)
    decreases g, 0
  {
    gen.WriteStringProperty("type", "GeometryCollection");
    gen.WriteName("geometries");
    gen.WriteStartArray();
    var members := g.members;
    var i := 0;
    while i < |members|
      invariant 0 <= i <= |members|
      invariant gen.tokens == old(gen.tokens) + [Name("type"), Str("GeometryCollection"), Name("geometries"), StartArray]
                              + MembersTokens(members[..i])
    {
      WriteGeometry(members[i], gen);
      assert members[..i + 1] == members[..i] + [members[i]];
      MembersTokensSnoc(members[..i], members[i]);
      i := i + 1;
    }
    gen.WriteEndArray();
    assert members[..i] == members;
  }

  /** `serialize`. */
  method Serialize(g: Option<Geometry>, gen: JsonGenerator)
    modifies gen
    ensures gen.tokens == old(gen.tokens) + SerializedTokens(g)
  {
    if g.None? {
      gen.WriteNull();
      return;
    }
    WriteGeometry(g.value, gen);
  }
}
