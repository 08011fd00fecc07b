/** GeometryDeserializer: reads a GeoJSON geometry object (section 3.1 of RFC 7946) from
    a token stream and builds the JTS geometry. The functions below say what each read
    consumes and produces; the methods at the end read the stream the way the
    deserializer does, one token at a time, and are proved to agree with them. */
module GeoJsonReader {
  import opened Common
  import opened Geometry
  import opened JsonTokens
  import opened GeoJsonWriter

  /** The exceptions a read of ill-formed input ends in: a token the reader cannot use,
      the end of the input, a cast of a list to a number or back, a missing element. */
  const Malformed := InvalidArgument("malformed GeoJSON")
  /** The exceptions the JTS factory raises for a geometry it refuses to build. */
  const InvalidGeometry := InvalidArgument("invalid geometry")

  // ---------------------------------------------------------------------------
  // Reading arrays

  /** `parseArray`, called just after the opening bracket: the list of numbers and lists
      up to the matching closing bracket, and the tokens after it. */
  function ParsedArray(ts: seq<Token>): (r: Result<(ArrayValue, seq<Token>)>)
    ensures r.Success? ==> r.value.0.Array? && |r.value.1| < |ts|
    decreases |ts|, 1
  {
    ParsedItems(ts, [])
  }

  /** The rest of an array whose first elements were `acc`. */
  function ParsedItems(ts: seq<Token>, acc: seq<ArrayValue>): (r: Result<(ArrayValue, seq<Token>)>)
    ensures r.Success? ==> r.value.0.Array? && |r.value.1| < |ts|
    decreases |ts|, 0
  {
    if ts == [] then Failure(Malformed)
    else match ts[0]
      case EndArray => Success((Array(acc), ts[1..]))
      case StartArray =>
        var inner :- ParsedArray(ts[1..]);
        ParsedItems(inner.1, acc + [inner.0])
      case Num(x) => ParsedItems(ts[1..], acc + [Number(x)])
      case _ => Failure(Malformed)
  }

  /** `skipChildren` after a value token: a scalar is already read; an object or array is
      read up to its matching end. */
  function Skipped(value: Token, ts: seq<Token>): (r: Result<seq<Token>>)
    ensures r.Success? ==> |r.value| <= |ts|
  {
    if value.StartObject? || value.StartArray? then SkippedTo(ts, 0) else Success(ts)
  }

  /** The tokens after the end that closes `depth` + 1 open containers. */
  function SkippedTo(ts: seq<Token>, depth: nat): (r: Result<seq<Token>>)
    ensures r.Success? ==> |r.value| < |ts|
    decreases |ts|
  {
    if ts == [] then Failure(Malformed)
    else if ts[0].StartObject? || ts[0].StartArray? then SkippedTo(ts[1..], depth + 1)
    else if ts[0].EndObject? || ts[0].EndArray? then
      (if depth == 0 then Success(ts[1..]) else SkippedTo(ts[1..], depth - 1))
    else SkippedTo(ts[1..], depth)
  }

  // ---------------------------------------------------------------------------
  // Building geometries

  /** JTS refuses a line string of exactly one point. */
  predicate LineOk(cs: seq<Coordinate>) { |cs| != 1 }

  /** `LinearRing.MINIMUM_VALID_SIZE` of the JTS 1.18 and later releases (earlier
      releases demanded 4). */
  const MinimumRingSize := 3

  /** JTS accepts a linear ring that is empty, or closed (first and last point equal in x
      and y) with at least `MinimumRingSize` points. */
  predicate RingOk(cs: seq<Coordinate>) {
    cs == [] || (|cs| >= MinimumRingSize && cs[0].x == cs[|cs| - 1].x && cs[0].y == cs[|cs| - 1].y)
  }

  /** JTS accepts a polygon whose rings are all valid rings, unless its shell is empty
      while one of its holes is not. */
  predicate PolygonOk(p: PolygonShape) {
    && RingOk(p.shell)
    && (forall i | 0 <= i < |p.holes| :: RingOk(p.holes[i]))
    && !(p.shell == [] && exists i | 0 <= i < |p.holes| :: p.holes[i] != [])
  }

  /** `toCoordinate`: a list of at least two numbers; a third number is z, further
      elements are ignored. */
  function ToCoordinate(v: Option<ArrayValue>): (r: Result<Coordinate>)
    ensures r.Success? <==>
      && v.Some? && v.value.Array? && |v.value.items| >= 2
      && v.value.items[0].Number? && v.value.items[1].Number?
      && (|v.value.items| > 2 ==> v.value.items[2].Number?)
    ensures r.Success? ==>
      && r.value.x == v.value.items[0].value && r.value.y == v.value.items[1].value
      && (r.value.z.Some? <==> |v.value.items| > 2)
      && (r.value.z.Some? ==> r.value.z.value == v.value.items[2].value)
    ensures r.Failure? ==> r.error == Malformed
  {
    if v.None? || v.value.Number? || |v.value.items| < 2 then Failure(Malformed)
    else
      var items := v.value.items;
      if !items[0].Number? || !items[1].Number? then Failure(Malformed)
      else if |items| > 2 then
        if items[2].Number? then Success(Coordinate(items[0].value, items[1].value, Some(items[2].value)))
        else Failure(Malformed)
      else Success(Coordinate(items[0].value, items[1].value, None))
  }

  /** `toCoordinateArray` over the elements of a list: every element a coordinate. */
  function ToCoordinates(items: seq<ArrayValue>): (r: Result<seq<Coordinate>>)
    ensures r.Success? <==> forall i | 0 <= i < |items| :: ToCoordinate(Some(items[i])).Success?
    ensures r.Success? ==> |r.value| == |items|
    ensures r.Success? ==> forall i | 0 <= i < |items| :: Success(r.value[i]) == ToCoordinate(Some(items[i]))
    ensures r.Failure? ==> r.error == Malformed
  {
    if items == [] then Success([])
    else
      var c :- ToCoordinate(Some(items[0]));
      var cs :- ToCoordinates(items[1..]);
      Success([c] + cs)
  }

  /** `toCoordinateArray`: the value must be a list. */
  function ToCoordinateArray(v: Option<ArrayValue>): (r: Result<seq<Coordinate>>)
    ensures v.None? || v.value.Number? ==> r == Failure(Malformed)
    ensures v.Some? && v.value.Array? ==> r == ToCoordinates(v.value.items)
  {
    if v.None? || v.value.Number? then Failure(Malformed) else ToCoordinates(v.value.items)
  }

  /** `createLineString`. */
  function CreateLineString(v: Option<ArrayValue>): (r: Result<seq<Coordinate>>)
    ensures r.Success? <==> ToCoordinateArray(v).Success? && LineOk(ToCoordinateArray(v).value)
    ensures r.Success? ==> r.value == ToCoordinateArray(v).value
    ensures ToCoordinateArray(v).Success? && r.Failure? ==> r.error == InvalidGeometry
  {
    var cs :- ToCoordinateArray(v);
    if LineOk(cs) then Success(cs) else Failure(InvalidGeometry)
  }

  /** The line strings of a list, in order. */
  function CreateLineStrings(items: seq<ArrayValue>): (r: Result<seq<seq<Coordinate>>>)
    ensures r.Success? <==> forall i | 0 <= i < |items| :: CreateLineString(Some(items[i])).Success?
    ensures r.Success? ==> |r.value| == |items|
    ensures r.Success? ==> forall i | 0 <= i < |items| :: Success(r.value[i]) == CreateLineString(Some(items[i]))
  {
    if items == [] then Success([])
    else
      var line :- CreateLineString(Some(items[0]));
      var lines :- CreateLineStrings(items[1..]);
      Success([line] + lines)
  }

  /** The linear rings of a list of lists, in order. */
  function CreateRings(items: seq<ArrayValue>): (r: Result<seq<seq<Coordinate>>>)
    ensures r.Success? <==> forall i | 0 <= i < |items| ::
      ToCoordinateArray(Some(items[i])).Success? && RingOk(ToCoordinateArray(Some(items[i])).value)
    ensures r.Success? ==> |r.value| == |items|
    ensures r.Success? ==> forall i | 0 <= i < |items| :: Success(r.value[i]) == ToCoordinateArray(Some(items[i]))
  {
    if items == [] then Success([])
    else
      var ring :- ToCoordinateArray(Some(items[0]));
      if !RingOk(ring) then Failure(InvalidGeometry)
      else
        var rings :- CreateRings(items[1..]);
        Success([ring] + rings)
  }

  /** `createPolygon`: the first list is the shell, every further list a hole; no list at
      all is an error. */
  function PolygonFromRings(v: Option<ArrayValue>): (r: Result<PolygonShape>)
    ensures v.None? || v.value.Number? || v.value.items == [] ==> r == Failure(Malformed)
    ensures r.Success? ==>
      && v.Some? && v.value.Array? && |v.value.items| == 1 + |r.value.holes|
      && PolygonOk(r.value)
      && Success(r.value.shell) == ToCoordinateArray(Some(v.value.items[0]))
      && forall i | 0 <= i < |r.value.holes| :: Success(r.value.holes[i]) == ToCoordinateArray(Some(v.value.items[i + 1]))
  {
    if v.None? || v.value.Number? || v.value.items == [] then Failure(Malformed)
    else
      var shell :- ToCoordinateArray(Some(v.value.items[0]));
      if !RingOk(shell) then Failure(InvalidGeometry)
      else
        var holes :- CreateRings(v.value.items[1..]);
        var p := PolygonShape(shell, holes);
        if !PolygonOk(p) then Failure(InvalidGeometry) else Success(p)
  }

  /** The polygons of a list, in order. */
  function CreatePolygons(items: seq<ArrayValue>): (r: Result<seq<PolygonShape>>)
    ensures r.Success? <==> forall i | 0 <= i < |items| :: PolygonFromRings(Some(items[i])).Success?
    ensures r.Success? ==> |r.value| == |items|
    ensures r.Success? ==> forall i | 0 <= i < |items| :: Success(r.value[i]) == PolygonFromRings(Some(items[i]))
  {
    if items == [] then Success([])
    else
      var p :- PolygonFromRings(Some(items[0]));
      var ps :- CreatePolygons(items[1..]);
      Success([p] + ps)
  }

  /** The members of an object the deserializer keeps; a later member of the same name
      replaces an earlier one. */
  datatype Fields = Fields(
    typeValue: Option<Token>,
    coordinates: Option<ArrayValue>,
    geometries: Option<seq<Option<Geometry>>>)

  const NoFields := Fields(None, None, None)

  function Present(gs: seq<Option<Geometry>>): (r: seq<Geometry>)
    requires forall i | 0 <= i < |gs| :: gs[i].Some?
    ensures |r| == |gs| && forall i | 0 <= i < |gs| :: gs[i] == Some(r[i])
  {
    seq(|gs|, i requires 0 <= i < |gs| => gs[i].value)
  }

  /** The seven type names the switch knows. */
  datatype TypeTag =
    | PointType | MultiPointType | LineStringType | MultiLineStringType
    | PolygonType | MultiPolygonType | GeometryCollectionType

  function TagOf(g: Geometry): TypeTag {
    match g
    case Point(_) => PointType
    case MultiPoint(_) => MultiPointType
    case LineString(_) => LineStringType
    case MultiLineString(_) => MultiLineStringType
    case Polygon(_) => PolygonType
    case MultiPolygon(_) => MultiPolygonType
    case GeometryCollection(_) => GeometryCollectionType
  }

  /** The cases of the switch on the type text; any other text selects none. */
  function TypeNamed(name: string): (r: Option<TypeTag>)
    ensures r.Some? ==> forall g: Geometry | TagOf(g) == r.value :: TypeName(g) == name
  {
    match name
    case "Point" => Some(PointType)
    case "MultiPoint" => Some(MultiPointType)
    case "LineString" => Some(LineStringType)
    case "MultiLineString" => Some(MultiLineStringType)
    case "Polygon" => Some(PolygonType)
    case "MultiPolygon" => Some(MultiPolygonType)
    case "GeometryCollection" => Some(GeometryCollectionType)
    case _ => None
  }

  /** The name the writer gives a geometry selects the geometry's own case. */
  lemma TypeNameSelectsItsCase(g: Geometry)
    ensures TypeNamed(TypeName(g)) == Some(TagOf(g))
  {
  }

  /** The `create...` call of one case of the switch; JTS refuses a collection holding
      a null member. */
  function BuildTagged(tag: TypeTag, fields: Fields): (r: Result<Geometry>)
    ensures r.Success? ==> TagOf(r.value) == tag
    ensures tag == GeometryCollectionType && fields.geometries.None? ==> r == Success(GeometryCollection([]))
  {
    var coordinates := fields.coordinates;
    match tag
    case PointType =>
      var c :- ToCoordinate(coordinates);
      Success(Point(c))
    case MultiPointType =>
      var cs :- ToCoordinateArray(coordinates);
      Success(MultiPoint(cs))
    case LineStringType =>
      var cs :- CreateLineString(coordinates);
      Success(LineString(cs))
    case MultiLineStringType =>
      if coordinates.None? || coordinates.value.Number? then Failure(Malformed)
      else
        var lines :- CreateLineStrings(coordinates.value.items);
        Success(MultiLineString(lines))
    case PolygonType =>
      var p :- PolygonFromRings(coordinates);
      Success(Polygon(p))
    case MultiPolygonType =>
      if coordinates.None? || coordinates.value.Number? then Failure(Malformed)
      else
        var ps :- CreatePolygons(coordinates.value.items);
        Success(MultiPolygon(ps))
    case GeometryCollectionType =>
      if fields.geometries.None? then Success(GeometryCollection([]))
      else if exists i | 0 <= i < |fields.geometries.value| :: fields.geometries.value[i].None? then
        Failure(InvalidGeometry)
      else Success(GeometryCollection(Present(fields.geometries.value)))
  }

  /** The switch after the object is read: no type yields null, as does a type that is
      none of the seven names. */
  function Build(fields: Fields): (r: Result<Option<Geometry>>)
    ensures fields.typeValue.None? ==> r == Success(None)
    ensures r.Success? && r.value.Some? ==> fields.typeValue == Some(Str(TypeName(r.value.value)))
    ensures fields.typeValue == Some(Str("GeometryCollection")) && fields.geometries.None?
            ==> r == Success(Some(GeometryCollection([])))
  {
    if fields.typeValue.None? || !fields.typeValue.value.Str? then Success(None)
    else
      match TypeNamed(fields.typeValue.value.text)
      case None => Success(None)
      case Some(tag) =>
        var g :- BuildTagged(tag, fields);
        Success(Some(g))
  }

  // ---------------------------------------------------------------------------
  // Reading objects

  /** `deserialize`, called just after the opening brace: the geometry and the tokens
      after the closing brace. */
  function Deserialized(ts: seq<Token>): (r: Result<(Option<Geometry>, seq<Token>)>)
    ensures r.Success? ==> |r.value.1| < |ts|
    decreases |ts|, 2
  {
    ReadMembers(ts, NoFields)
  }

  /** The member loop of `deserialize`: a member name and its value, until the closing
      brace. A "type" member keeps its scalar value, "coordinates" and "geometries" read
      their arrays, any other member is skipped. */
  function ReadMembers(ts: seq<Token>, fields: Fields): (r: Result<(Option<Geometry>, seq<Token>)>)
    ensures r.Success? ==> |r.value.1| < |ts|
    decreases |ts|, 1
  {
    if ts == [] then Failure(Malformed)
    else if ts[0].EndObject? then
      var g :- Build(fields);
      Success((g, ts[1..]))
    else if !ts[0].Name? || |ts| < 2 then Failure(Malformed)
    else
      var name, value, rest := ts[0].name, ts[1], ts[2..];
      if name == "type" then
        if value.StartObject? || value.StartArray? || value.EndObject? || value.EndArray? then Failure(Malformed)
        else ReadMembers(rest, fields.(typeValue := Some(value)))
      else if name == "coordinates" then
        if !value.StartArray? then Failure(Malformed)
        else
          var parsed :- ParsedArray(rest);
          ReadMembers(parsed.1, fields.(coordinates := Some(parsed.0)))
      else if name == "geometries" then
        if !value.StartArray? then Failure(Malformed)
        else
          var parsed :- ParsedGeometries(rest, []);
          ReadMembers(parsed.1, fields.(geometries := Some(parsed.0)))
      else
        var after :- Skipped(value, rest);
        ReadMembers(after, fields)
  }

  /** `parseGeometries`, called just after the opening bracket: every element an object
      read by `deserialize`, up to the closing bracket. */
  function ParsedGeometries(ts: seq<Token>, acc: seq<Option<Geometry>>): (r: Result<(seq<Option<Geometry>>, seq<Token>)>)
    ensures r.Success? ==> |r.value.1| < |ts|
    decreases |ts|, 0
  {
    if ts == [] then Failure(Malformed)
    else if ts[0].EndArray? then Success((acc, ts[1..]))
    else if !ts[0].StartObject? then Failure(Malformed)
    else
      var member :- Deserialized(ts[1..]);
      ParsedGeometries(member.1, acc + [member.0])
  }

  /** The value `deserialize` returns for a whole input: JSON null is a null geometry. */
  function Decoded(ts: seq<Token>): (r: Result<(Option<Geometry>, seq<Token>)>)
    ensures r.Success? ==> |r.value.1| < |ts|
  {
    if ts == [] then Failure(Malformed)
    else if ts[0].Null? then Success((None, ts[1..]))
    else if ts[0].StartObject? then Deserialized(ts[1..])
    else Failure(Malformed)
  }

  // ---------------------------------------------------------------------------
  // The round trip

  /** The geometries JTS lets the reader build: lines of other than one point, polygons
      of valid rings, and collections of such. */
  predicate Constructible(g: Geometry)
    decreases g
  {
    match g
    case Point(_) => true
    case MultiPoint(_) => true
    case LineString(cs) => LineOk(cs)
    case MultiLineString(lines) => forall i | 0 <= i < |lines| :: LineOk(lines[i])
    case Polygon(p) => PolygonOk(p)
    case MultiPolygon(ps) => forall i | 0 <= i < |ps| :: PolygonOk(ps[i])
    case GeometryCollection(ms) => forall i | 0 <= i < |ms| :: Constructible(ms[i])
  }

  function Somes(gs: seq<Geometry>): (r: seq<Option<Geometry>>)
    ensures |r| == |gs| && forall i | 0 <= i < |gs| :: r[i] == Some(gs[i])
  {
    seq(|gs|, i requires 0 <= i < |gs| => Some(gs[i]))
  }

  /** An array the writer wrote is read back whole, and reading stops right after it. */
  lemma {:induction false} ItemsRoundTrip(items: seq<ArrayValue>, acc: seq<ArrayValue>, rest: seq<Token>)
    ensures ParsedItems(ItemsTokens(items) + [EndArray] + rest, acc) == Success((Array(acc + items), rest))
    decreases items
  {
    var ts := ItemsTokens(items) + [EndArray] + rest;
    if items == [] {
      assert ts == [EndArray] + rest && ts[1..] == rest;
      assert acc + items == acc;
    } else {
      var v, tail := items[0], ItemsTokens(items[1..]) + [EndArray] + rest;
      assert ts == ValueTokens(v) + tail;
      assert acc + [v] + items[1..] == acc + items;
      match v {
        case Number(x) =>
          assert ts[0] == Num(x) && ts[1..] == tail;
        case Array(inner) =>
          assert ts[0] == StartArray && ts[1..] == ItemsTokens(inner) + [EndArray] + tail;
          ItemsRoundTrip(inner, [], tail);
          assert [] + inner == inner;
      }
      ItemsRoundTrip(items[1..], acc + [v], rest);
    }
  }

  /** A value the writer wrote as an array is read back as that value. */
  lemma ArrayRoundTrip(v: ArrayValue, rest: seq<Token>)
    requires v.Array?
    ensures ParsedArray(ValueTokens(v)[1..] + rest) == Success((v, rest))
  {
    assert ValueTokens(v)[1..] + rest == ItemsTokens(v.items) + [EndArray] + rest;
    ItemsRoundTrip(v.items, [], rest);
    assert [] + v.items == v.items;
  }

  /** Every coordinate the writer writes reads back as itself, z included. */
  lemma CoordinatesRoundTrip(cs: seq<Coordinate>)
    ensures ToCoordinateArray(Some(PositionsValue(cs))) == Success(cs)
  {
    var r := ToCoordinates(PositionsValue(cs).items);
    assert forall i | 0 <= i < |cs| :: ToCoordinate(Some(PositionValue(cs[i]))) == Success(cs[i]);
    assert r.Success?;
    assert r.value == cs;
  }

  /** Rings JTS accepts are read back as themselves. */
  lemma {:induction false} RingsRoundTrip(items: seq<ArrayValue>, rings: seq<seq<Coordinate>>)
    requires |items| == |rings| && forall i | 0 <= i < |rings| :: items[i] == PositionsValue(rings[i])
    requires forall i | 0 <= i < |rings| :: RingOk(rings[i])
    ensures CreateRings(items) == Success(rings)
    decreases |items|
  {
    if items != [] {
      CoordinatesRoundTrip(rings[0]);
      RingsRoundTrip(items[1..], rings[1..]);
      assert [rings[0]] + rings[1..] == rings;
    }
  }

  /** The rings of a polygon JTS accepts are read back as that polygon. */
  lemma PolygonRoundTrip(p: PolygonShape)
    requires PolygonOk(p)
    ensures PolygonFromRings(Some(RingsValue(p))) == Success(p)
  {
    var items := RingsValue(p).items;
    CoordinatesRoundTrip(p.shell);
    RingsRoundTrip(items[1..], p.holes);
  }

  /** Lines JTS accepts are read back as themselves. */
  lemma {:induction false} LinesRoundTrip(items: seq<ArrayValue>, lines: seq<seq<Coordinate>>)
    requires |items| == |lines| && forall i | 0 <= i < |lines| :: items[i] == PositionsValue(lines[i])
    requires forall i | 0 <= i < |lines| :: LineOk(lines[i])
    ensures CreateLineStrings(items) == Success(lines)
    decreases |items|
  {
    if items != [] {
      CoordinatesRoundTrip(lines[0]);
      LinesRoundTrip(items[1..], lines[1..]);
      assert [lines[0]] + lines[1..] == lines;
    }
  }

  /** Polygons JTS accepts are read back as themselves. */
  lemma {:induction false} PolygonsRoundTrip(items: seq<ArrayValue>, ps: seq<PolygonShape>)
    requires |items| == |ps| && forall i | 0 <= i < |ps| :: items[i] == RingsValue(ps[i])
    requires forall i | 0 <= i < |ps| :: PolygonOk(ps[i])
    ensures CreatePolygons(items) == Success(ps)
    decreases |items|
  {
    if items != [] {
      PolygonRoundTrip(ps[0]);
      PolygonsTail(items, ps);
      PolygonsRoundTrip(items[1..], ps[1..]);
      CreatePolygonsCons(items, ps[0], ps[1..]);
      assert [ps[0]] + ps[1..] == ps;
    }
  }

  lemma PolygonsTail(items: seq<ArrayValue>, ps: seq<PolygonShape>)
    requires |items| == |ps| > 0 && forall i | 0 <= i < |ps| :: items[i] == RingsValue(ps[i])
    requires forall i | 0 <= i < |ps| :: PolygonOk(ps[i])
    ensures forall i | 0 <= i < |ps| - 1 :: items[1..][i] == RingsValue(ps[1..][i])
    ensures forall i | 0 <= i < |ps| - 1 :: PolygonOk(ps[1..][i])
  {
  }

  lemma CreatePolygonsCons(items: seq<ArrayValue>, p: PolygonShape, ps: seq<PolygonShape>)
    requires items != []
    requires PolygonFromRings(Some(items[0])) == Success(p)
    requires CreatePolygons(items[1..]) == Success(ps)
    ensures CreatePolygons(items) == Success([p] + ps)
  {
  }

  /** The "type" and "coordinates" the writer emits for a geometry other than a
      collection build that geometry again, when JTS accepts it. */
  lemma BuildRoundTrip(g: Geometry)
    requires !g.GeometryCollection? && Constructible(g)
    ensures Build(Fields(Some(Str(TypeName(g))), Some(CoordinatesValue(g)), None)) == Success(Some(g))
  {
    TypeNameSelectsItsCase(g);
    TaggedRoundTrip(g, Fields(Some(Str(TypeName(g))), Some(CoordinatesValue(g)), None));
  }

  /** The case of the switch a geometry's kind selects rebuilds it from its coordinates. */
  lemma TaggedRoundTrip(g: Geometry, fields: Fields)
    requires !g.GeometryCollection? && Constructible(g)
    requires fields.coordinates == Some(CoordinatesValue(g))
    ensures BuildTagged(TagOf(g), fields) == Success(g)
  {
    match g {
      case Point(c) => PointRoundTrip(c, fields);
      case MultiPoint(cs) => MultiPointRoundTrip(cs, fields);
      case LineString(cs) => LineStringRoundTrip(cs, fields);
      case MultiLineString(lines) => MultiLineStringRoundTrip(lines, fields);
      case Polygon(p) => PolygonCaseRoundTrip(p, fields);
      case MultiPolygon(ps) => MultiPolygonRoundTrip(ps, fields);
    }
  }

  lemma PointRoundTrip(c: Coordinate, fields: Fields)
    requires fields.coordinates == Some(PositionValue(c))
    ensures BuildTagged(PointType, fields) == Success(Point(c))
  {
  }

  lemma MultiPointRoundTrip(cs: seq<Coordinate>, fields: Fields)
    requires fields.coordinates == Some(PositionsValue(cs))
    ensures BuildTagged(MultiPointType, fields) == Success(MultiPoint(cs))
  {
    CoordinatesRoundTrip(cs);
  }

  lemma LineStringRoundTrip(cs: seq<Coordinate>, fields: Fields)
    requires LineOk(cs) && fields.coordinates == Some(PositionsValue(cs))
    ensures BuildTagged(LineStringType, fields) == Success(LineString(cs))
  {
    CoordinatesRoundTrip(cs);
  }

  lemma PolygonCaseRoundTrip(p: PolygonShape, fields: Fields)
    requires PolygonOk(p) && fields.coordinates == Some(RingsValue(p))
    ensures BuildTagged(PolygonType, fields) == Success(Polygon(p))
  {
    PolygonRoundTrip(p);
    PolygonBuilt(fields, p);
  }

  lemma PolygonBuilt(fields: Fields, p: PolygonShape)
    requires PolygonFromRings(fields.coordinates) == Success(p)
    ensures BuildTagged(PolygonType, fields) == Success(Polygon(p))
  {
  }

  lemma MultiLineStringRoundTrip(lines: seq<seq<Coordinate>>, fields: Fields)
    requires forall i | 0 <= i < |lines| :: LineOk(lines[i])
    requires fields.coordinates == Some(CoordinatesValue(MultiLineString(lines)))
    ensures BuildTagged(MultiLineStringType, fields) == Success(MultiLineString(lines))
  {
    LinesRoundTrip(fields.coordinates.value.items, lines);
    MultiLineStringBuilt(fields, lines);
  }

  lemma MultiLineStringBuilt(fields: Fields, lines: seq<seq<Coordinate>>)
    requires fields.coordinates.Some? && fields.coordinates.value.Array?
    requires CreateLineStrings(fields.coordinates.value.items) == Success(lines)
    ensures BuildTagged(MultiLineStringType, fields) == Success(MultiLineString(lines))
  {
  }

  lemma MultiPolygonRoundTrip(ps: seq<PolygonShape>, fields: Fields)
    requires forall i | 0 <= i < |ps| :: PolygonOk(ps[i])
    requires fields.coordinates == Some(CoordinatesValue(MultiPolygon(ps)))
    ensures BuildTagged(MultiPolygonType, fields) == Success(MultiPolygon(ps))
  {
    PolygonsRoundTrip(fields.coordinates.value.items, ps);
    MultiPolygonBuilt(fields, ps);
  }

  lemma MultiPolygonBuilt(fields: Fields, ps: seq<PolygonShape>)
    requires fields.coordinates.Some? && fields.coordinates.value.Array?
    requires CreatePolygons(fields.coordinates.value.items) == Success(ps)
    ensures BuildTagged(MultiPolygonType, fields) == Success(MultiPolygon(ps))
  {
  }

  /** The tokens of a geometry object after its opening brace. */
  lemma ObjectTokens(g: Geometry, rest: seq<Token>)
    ensures g.GeometryCollection? ==>
              GeometryTokens(g)[1..] + rest
              == [Name("type"), Str(TypeName(g)), Name("geometries"), StartArray]
                 + (MembersTokens(g.members) + [EndArray] + ([EndObject] + rest))
    ensures !g.GeometryCollection? ==>
              GeometryTokens(g)[1..] + rest
              == [Name("type"), Str(TypeName(g)), Name("coordinates"), StartArray]
                 + (ValueTokens(CoordinatesValue(g))[1..] + ([EndObject] + rest))
  {
    if g.GeometryCollection? {
      CollectionObjectTokens(g, rest);
    } else {
      CoordinatesObjectTokens(g, rest);
    }
  }

  lemma CollectionObjectTokens(g: Geometry, rest: seq<Token>)
    requires g.GeometryCollection?
    ensures GeometryTokens(g)[1..] + rest
            == [Name("type"), Str(TypeName(g)), Name("geometries"), StartArray]
               + (MembersTokens(g.members) + [EndArray] + ([EndObject] + rest))
  {
    var m := MemberTokens(g);
    assert m == [Name("type"), Str(TypeName(g)), Name("geometries"), StartArray]
                + MembersTokens(g.members) + [EndArray];
    assert GeometryTokens(g)[1..] == m + [EndObject];
  }

  lemma CoordinatesObjectTokens(g: Geometry, rest: seq<Token>)
    requires !g.GeometryCollection?
    ensures GeometryTokens(g)[1..] + rest
            == [Name("type"), Str(TypeName(g)), Name("coordinates"), StartArray]
               + (ValueTokens(CoordinatesValue(g))[1..] + ([EndObject] + rest))
  {
    var v := ValueTokens(CoordinatesValue(g));
    assert v == [StartArray] + v[1..];
    var m := MemberTokens(g);
    assert m == [Name("type"), Str(TypeName(g)), Name("coordinates")] + v;
    assert GeometryTokens(g)[1..] == m + [EndObject];
  }

  /** Reading a "type" member with a string value keeps that string. */
  lemma ReadTypeMember(name: string, rest: seq<Token>, fields: Fields)
    ensures ReadMembers([Name("type"), Str(name)] + rest, fields)
            == ReadMembers(rest, fields.(typeValue := Some(Str(name))))
  {
    assert ([Name("type"), Str(name)] + rest)[2..] == rest;
  }

  /** Reading a "coordinates" member the writer wrote keeps its array. */
  lemma ReadCoordinatesMember(v: ArrayValue, rest: seq<Token>, fields: Fields)
    requires v.Array?
    ensures ReadMembers([Name("coordinates"), StartArray] + (ValueTokens(v)[1..] + rest), fields)
            == ReadMembers(rest, fields.(coordinates := Some(v)))
  {
    var ts := [Name("coordinates"), StartArray] + (ValueTokens(v)[1..] + rest);
    assert ts[2..] == ValueTokens(v)[1..] + rest;
    ArrayRoundTrip(v, rest);
  }

  /** Reading the closing brace builds the geometry from the members kept. */
  lemma ReadEndOfObject(rest: seq<Token>, fields: Fields)
    requires Build(fields).Success?
    ensures ReadMembers([EndObject] + rest, fields) == Success((Build(fields).value, rest))
  {
    assert ([EndObject] + rest)[1..] == rest;
  }

  /** Every geometry JTS accepts is read back from what the writer wrote for it, and the
      read stops right after its closing brace. */
  lemma {:induction false} GeometryRoundTrip(g: Geometry, rest: seq<Token>)
    requires Constructible(g)
    ensures Deserialized(GeometryTokens(g)[1..] + rest) == Success((Some(g), rest))
    decreases g, 2
  {
    var typed := NoFields.(typeValue := Some(Str(TypeName(g))));
    ObjectTokens(g, rest);
    if g.GeometryCollection? {
      var after := [EndObject] + rest;
      var geometries := [Name("geometries"), StartArray] + (MembersTokens(g.members) + [EndArray] + after);
      assert GeometryTokens(g)[1..] + rest == [Name("type"), Str(TypeName(g))] + geometries;
      ReadTypeMember(TypeName(g), geometries, NoFields);
      ReadGeometriesMember(g.members, after, typed);
      var fields := typed.(geometries := Some(Somes(g.members)));
      assert Present(Somes(g.members)) == g.members;
      TypeNameSelectsItsCase(g);
      assert BuildTagged(TagOf(g), fields) == Success(g);
      ReadEndOfObject(rest, fields);
    } else {
      var v := CoordinatesValue(g);
      var after := [EndObject] + rest;
      var coordinates := [Name("coordinates"), StartArray] + (ValueTokens(v)[1..] + after);
      assert GeometryTokens(g)[1..] + rest == [Name("type"), Str(TypeName(g))] + coordinates;
      ReadTypeMember(TypeName(g), coordinates, NoFields);
      ReadCoordinatesMember(v, after, typed);
      BuildRoundTrip(g);
      ReadEndOfObject(rest, typed.(coordinates := Some(v)));
    }
  }

  /** Reading a "geometries" member the writer wrote keeps its members. */
  lemma {:induction false} ReadGeometriesMember(gs: seq<Geometry>, rest: seq<Token>, fields: Fields)
    requires forall i | 0 <= i < |gs| :: Constructible(gs[i])
    ensures ReadMembers([Name("geometries"), StartArray] + (MembersTokens(gs) + [EndArray] + rest), fields)
            == ReadMembers(rest, fields.(geometries := Some(Somes(gs))))
    decreases gs, 1
  {
    var ts := [Name("geometries"), StartArray] + (MembersTokens(gs) + [EndArray] + rest);
    assert ts[2..] == MembersTokens(gs) + [EndArray] + rest;
    MembersRoundTrip(gs, [], rest);
    assert [] + Somes(gs) == Somes(gs);
  }

  /** The members of a collection are read back one by one, in order. */
  lemma {:induction false} MembersRoundTrip(gs: seq<Geometry>, acc: seq<Option<Geometry>>, rest: seq<Token>)
    requires forall i | 0 <= i < |gs| :: Constructible(gs[i])
    ensures ParsedGeometries(MembersTokens(gs) + [EndArray] + rest, acc) == Success((acc + Somes(gs), rest))
    decreases gs, 0
  {
    var ts := MembersTokens(gs) + [EndArray] + rest;
    if gs == [] {
      assert ts == [EndArray] + rest && ts[1..] == rest;
      assert acc + Somes(gs) == acc;
    } else {
      var g, tail := gs[0], MembersTokens(gs[1..]) + [EndArray] + rest;
      assert ts == GeometryTokens(g) + tail;
      assert ts[0] == StartObject && ts[1..] == GeometryTokens(g)[1..] + tail;
      GeometryRoundTrip(g, tail);
      MembersRoundTrip(gs[1..], acc + [Some(g)], rest);
      assert acc + [Some(g)] + Somes(gs[1..]) == acc + Somes(gs);
    }
  }

  /** The codec's round trip: what `serialize` writes for a null or a geometry JTS accepts,
      `deserialize` reads back unchanged, consuming exactly those tokens. */
  lemma SerializeThenDeserialize(g: Option<Geometry>, rest: seq<Token>)
    requires g.Some? ==> Constructible(g.value)
    ensures Decoded(SerializedTokens(g) + rest) == Success((g, rest))
  {
    if g.Some? {
      var ts := SerializedTokens(g) + rest;
      assert ts[0] == StartObject && ts[1..] == GeometryTokens(g.value)[1..] + rest;
      GeometryRoundTrip(g.value, rest);
    } else {
      assert (SerializedTokens(g) + rest)[1..] == rest;
    }
  }

  /** Every member that was read is a geometry JTS accepts. */
  ghost predicate MembersConstructible(gs: seq<Option<Geometry>>) {
    forall i | 0 <= i < |gs| && gs[i].Some? :: Constructible(gs[i].value)
  }

  /** What a case of the switch builds, JTS accepts. */
  lemma BuildTaggedConstructible(tag: TypeTag, fields: Fields)
    requires fields.geometries.Some? ==> MembersConstructible(fields.geometries.value)
    ensures BuildTagged(tag, fields).Success? ==> Constructible(BuildTagged(tag, fields).value)
  {
    var r := BuildTagged(tag, fields);
    if r.Success? {
      match r.value {
        case MultiLineString(lines) =>
          forall i | 0 <= i < |lines| ensures LineOk(lines[i]) {
            assert Success(lines[i]) == CreateLineString(Some(fields.coordinates.value.items[i]));
          }
        case MultiPolygon(ps) =>
          forall i | 0 <= i < |ps| ensures PolygonOk(ps[i]) {
            assert Success(ps[i]) == PolygonFromRings(Some(fields.coordinates.value.items[i]));
          }
        case GeometryCollection(ms) =>
          if fields.geometries.Some? {
            forall i | 0 <= i < |ms| ensures Constructible(ms[i]) {
              assert fields.geometries.value[i] == Some(ms[i]);
            }
          }
        case _ =>
      }
    }
  }

  /** The member loop only ever yields geometries JTS accepts. */
  lemma {:induction false} ReadMembersConstructible(ts: seq<Token>, fields: Fields)
    requires fields.geometries.Some? ==> MembersConstructible(fields.geometries.value)
    ensures var r := ReadMembers(ts, fields);
            r.Success? && r.value.0.Some? ==> Constructible(r.value.0.value)
    decreases |ts|, 1
  {
    if ts == [] || !(ts[0].EndObject? || (ts[0].Name? && |ts| >= 2)) {
    } else if ts[0].EndObject? {
      if fields.typeValue.Some? && fields.typeValue.value.Str? && TypeNamed(fields.typeValue.value.text).Some? {
        BuildTaggedConstructible(TypeNamed(fields.typeValue.value.text).value, fields);
      }
    } else {
      var name, value, rest := ts[0].name, ts[1], ts[2..];
      if name == "type" {
        ReadMembersConstructible(rest, fields.(typeValue := Some(value)));
      } else if name == "coordinates" {
        var parsed := ParsedArray(rest);
        if parsed.Success? {
          ReadMembersConstructible(parsed.value.1, fields.(coordinates := Some(parsed.value.0)));
        }
      } else if name == "geometries" {
        var parsed := ParsedGeometries(rest, []);
        if value.StartArray? && parsed.Success? {
          ParsedGeometriesConstructible(rest, []);
          ReadMembersConstructible(parsed.value.1, fields.(geometries := Some(parsed.value.0)));
        }
      } else {
        var after := Skipped(value, rest);
        if after.Success? {
          ReadMembersConstructible(after.value, fields);
        }
      }
    }
  }

  /** The members of a collection that were read are geometries JTS accepts. */
  lemma {:induction false} ParsedGeometriesConstructible(ts: seq<Token>, acc: seq<Option<Geometry>>)
    requires MembersConstructible(acc)
    ensures var r := ParsedGeometries(ts, acc);
            r.Success? ==> MembersConstructible(r.value.0)
    decreases |ts|, 0
  {
    if ts != [] && ts[0].StartObject? {
      var member := Deserialized(ts[1..]);
      if member.Success? {
        ReadMembersConstructible(ts[1..], NoFields);
        assert MembersConstructible(acc + [member.value.0]);
        ParsedGeometriesConstructible(member.value.1, acc + [member.value.0]);
      }
    }
  }

  /** Whatever the deserializer reads, the serializer writes so that it reads back the
      same: writing normalises nothing away. */
  lemma ReadThenWriteThenRead(ts: seq<Token>, rest: seq<Token>)
    requires Decoded(ts).Success?
    ensures Decoded(SerializedTokens(Decoded(ts).value.0) + rest) == Success((Decoded(ts).value.0, rest))
  {
    if ts[0].StartObject? {
      ReadMembersConstructible(ts[1..], NoFields);
    }
    SerializeThenDeserialize(Decoded(ts).value.0, rest);
  }

  // ---------------------------------------------------------------------------
  // The reader, one token at a time

  /** A read that returned `r` and left `remaining` unread did what `spec` describes. */
  predicate Agrees<T(==)>(r: Result<T>, spec: Result<(T, seq<Token>)>, remaining: seq<Token>) {
    match r
    case Success(v) => spec == Success((v, remaining))
    case Failure(e) => spec == Failure(e)
  }

  /** The list `prefix` followed by the list `r` holds, unless `r` is an error. */
  function Prepend<T>(prefix: seq<T>, r: Result<seq<T>>): (p: Result<seq<T>>)
    ensures p.Failure? <==> r.Failure?
    ensures p.Success? ==> p.value == prefix + r.value
    ensures p.Failure? ==> p.error == r.error
  {
    if r.Failure? then Failure(r.error) else Success(prefix + r.value)
  }

  /** `parseArray`: the parser has just read an opening bracket. */
  method ParseArray(parser: JsonParser) returns (r: Result<ArrayValue>)
    requires parser.Valid()
    modifies parser
    ensures parser.Valid() && old(parser.pos) <= parser.pos
    ensures Agrees(r, ParsedArray(old(parser.Remaining())), parser.Remaining())
    decreases |parser.tokens| - parser.pos
  {
    var list: seq<ArrayValue> := [];
    while true
      invariant parser.Valid() && old(parser.pos) <= parser.pos
      invariant ParsedArray(old(parser.Remaining())) == ParsedItems(parser.Remaining(), list)
      decreases |parser.tokens| - parser.pos
    {
      var t := parser.NextToken();
      if t.None? {
        return Failure(Malformed);
      }
      match t.value {
        case EndArray =>
          return Success(Array(list));
        case StartArray =>
          var inner := ParseArray(parser);
          if inner.Failure? {
            return Failure(inner.error);
          }
          list := list + [inner.value];
        case Num(x) =>
          list := list + [Number(x)];
        case _ =>
          return Failure(Malformed);
      }
    }
  }

  /** `skipChildren`: after an opening token, read up to the matching end. */
  method SkipChildren(parser: JsonParser, value: Token) returns (r: Outcome)
    requires parser.Valid()
    modifies parser
    ensures parser.Valid() && old(parser.pos) <= parser.pos
    ensures r.Pass? ==> Skipped(value, old(parser.Remaining())) == Success(parser.Remaining())
    ensures r.Fail? ==> Skipped(value, old(parser.Remaining())) == Failure(r.error)
  {
    if !(value.StartObject? || value.StartArray?) {
      return Pass;
    }
    var depth: nat := 0;
    while true
      invariant parser.Valid() && old(parser.pos) <= parser.pos
      invariant Skipped(value, old(parser.Remaining())) == SkippedTo(parser.Remaining(), depth)
      decreases |parser.tokens| - parser.pos
    {
      var t := parser.NextToken();
      if t.None? {
        return Fail(Malformed);
      }
      if t.value.StartObject? || t.value.StartArray? {
        depth := depth + 1;
      } else if t.value.EndObject? || t.value.EndArray? {
        if depth == 0 {
          return Pass;
        }
        depth := depth - 1;
      }
    }
  }

  /** `createPolygon`: the shell, then the holes one by one. */
  method CreatePolygon(coordinates: Option<ArrayValue>) returns (r: Result<PolygonShape>)
    ensures r == PolygonFromRings(coordinates)
  {
    if coordinates.None? || coordinates.value.Number? || coordinates.value.items == [] {
      return Failure(Malformed);
    }
    var rings := coordinates.value.items;
    var shell := ToCoordinateArray(Some(rings[0]));
    if shell.Failure? {
      return Failure(shell.error);
    }
    if !RingOk(shell.value) {
      return Failure(InvalidGeometry);
    }
    var holes := CreateHoles(rings[1..]);
    if holes.Failure? {
      return Failure(holes.error);
    }
    var p := PolygonShape(shell.value, holes.value);
    if !PolygonOk(p) {
      return Failure(InvalidGeometry);
    }
    r := Success(p);
  }

  /** The loop of `createPolygon` that builds each hole in turn. */
  method CreateHoles(rings: seq<ArrayValue>) returns (r: Result<seq<seq<Coordinate>>>)
    ensures r == CreateRings(rings)
  {
    var holes: seq<seq<Coordinate>> := [];
    var i := 0;
    assert rings[0..] == rings;
    PrependNothing(CreateRings(rings));
    while i < |rings|
      invariant 0 <= i <= |rings|
      invariant CreateRings(rings) == Prepend(holes, CreateRings(rings[i..]))
    {
      var hole := ToCoordinateArray(Some(rings[i]));
      CreateRingsStep(rings[i..]);
      assert rings[i..][0] == rings[i] && rings[i..][1..] == rings[i + 1..];
      if hole.Failure? {
        return Failure(hole.error);
      }
      if !RingOk(hole.value) {
        return Failure(InvalidGeometry);
      }
      PrependTwice(holes, [hole.value], CreateRings(rings[i + 1..]));
      holes := holes + [hole.value];
      i := i + 1;
    }
    assert rings[i..] == [] && CreateRings([]) == Success([]) && holes + [] == holes;
    r := Success(holes);
  }

  lemma PrependNothing<T>(r: Result<seq<T>>)
    ensures Prepend([], r) == r
  {
    if r.Success? {
      assert [] + r.value == r.value;
    }
  }

  lemma PrependTwice<T>(a: seq<T>, b: seq<T>, r: Result<seq<T>>)
    ensures Prepend(a, Prepend(b, r)) == Prepend(a + b, r)
  {
    if r.Success? {
      assert a + (b + r.value) == a + b + r.value;
    }
  }

  /** One step of `CreateRings`: the first ring, then the others. */
  lemma CreateRingsStep(rings: seq<ArrayValue>)
    requires rings != []
    ensures var first := ToCoordinateArray(Some(rings[0]));
            && (first.Failure? ==> CreateRings(rings) == Failure(first.error))
            && (first.Success? && !RingOk(first.value) ==> CreateRings(rings) == Failure(InvalidGeometry))
            && (first.Success? && RingOk(first.value) ==> CreateRings(rings) == Prepend([first.value], CreateRings(rings[1..])))
  {
  }

  /** The switch on the type text, with `createPolygon` called for a polygon. */
  method CreateGeometry(fields: Fields) returns (r: Result<Option<Geometry>>)
    ensures r == Build(fields)
  {
    if fields.typeValue.None? || !fields.typeValue.value.Str? {
      return Success(None);
    }
    var tag := TypeNamed(fields.typeValue.value.text);
    if tag.None? {
      return Success(None);
    }
    if tag.value == PolygonType {
      var polygon := CreatePolygon(fields.coordinates);
      if polygon.Failure? {
        return Failure(polygon.error);
      }
      return Success(Some(Polygon(polygon.value)));
    }
    var g := BuildTagged(tag.value, fields);
    if g.Failure? {
      return Failure(g.error);
    }
    r := Success(Some(g.value));
  }

  /** `deserialize`: the parser has just read an opening brace; members are read until
      the closing brace, then the geometry is built. */
  method Deserialize(parser: JsonParser) returns (r: Result<Option<Geometry>>)
    requires parser.Valid()
    modifies parser
    ensures parser.Valid() && old(parser.pos) <= parser.pos
    ensures Agrees(r, Deserialized(old(parser.Remaining())), parser.Remaining())
    decreases |parser.tokens| - parser.pos, 1
  {
    var fields := NoFields;
    while true
      invariant parser.Valid() && old(parser.pos) <= parser.pos
      invariant Deserialized(old(parser.Remaining())) == ReadMembers(parser.Remaining(), fields)
      decreases |parser.tokens| - parser.pos
    {
      var t := parser.NextToken();
      if t.None? {
        return Failure(Malformed);
      }
      if t.value.EndObject? {
        break;
      }
      if !t.value.Name? {
        return Failure(Malformed);
      }
      var name := t.value.name;
      var value := parser.NextToken();
      if value.None? {
        return Failure(Malformed);
      }
      if name == "type" {
        if value.value.StartObject? || value.value.StartArray? || value.value.EndObject? || value.value.EndArray? {
          return Failure(Malformed);
        }
        fields := fields.(typeValue := Some(value.value));
      } else if name == "coordinates" {
        if !value.value.StartArray? {
          return Failure(Malformed);
        }
        var coordinates := ParseArray(parser);
        if coordinates.Failure? {
          return Failure(coordinates.error);
        }
        fields := fields.(coordinates := Some(coordinates.value));
      } else if name == "geometries" {
        if !value.value.StartArray? {
          return Failure(Malformed);
        }
        var geometries := ParseGeometries(parser);
        if geometries.Failure? {
          return Failure(geometries.error);
        }
        fields := fields.(geometries := Some(geometries.value));
      } else {
        var skipped := SkipChildren(parser, value.value);
        if skipped.Fail? {
          return Failure(skipped.error);
        }
      }
    }
    r := CreateGeometry(fields);
  }

  /** `parseGeometries`: the parser has just read an opening bracket; every element is
      an object read by `deserialize`. */
  method ParseGeometries(parser: JsonParser) returns (r: Result<seq<Option<Geometry>>>)
    requires parser.Valid()
    modifies parser
    ensures parser.Valid() && old(parser.pos) <= parser.pos
    ensures Agrees(r, ParsedGeometries(old(parser.Remaining()), []), parser.Remaining())
    decreases |parser.tokens| - parser.pos, 0
  {
    var list: seq<Option<Geometry>> := [];
    while true
      invariant parser.Valid() && old(parser.pos) <= parser.pos
      invariant ParsedGeometries(old(parser.Remaining()), []) == ParsedGeometries(parser.Remaining(), list)
      decreases |parser.tokens| - parser.pos
    {
      var t := parser.NextToken();
      if t.None? {
        return Failure(Malformed);
      }
      if t.value.EndArray? {
        return Success(list);
      }
      if !t.value.StartObject? {
        return Failure(Malformed);
      }
      var member := Deserialize(parser);
      if member.Failure? {
        return Failure(member.error);
      }
      list := list + [member.value];
    }
  }

  /** Reading a geometry value: JSON null is a null geometry, an object is read by
      `deserialize`. */
  method ReadGeometry(parser: JsonParser) returns (r: Result<Option<Geometry>>)
    requires parser.Valid()
    modifies parser
    ensures parser.Valid()
    ensures Agrees(r, Decoded(old(parser.Remaining())), parser.Remaining())
  {
    var t := parser.NextToken();
    if t.None? {
      return Failure(Malformed);
    }
    if t.value.Null? {
      return Success(None);
    }
    if !t.value.StartObject? {
      return Failure(Malformed);
    }
    r := Deserialize(parser);
  }

  /** The codec end to end: a geometry JTS accepts, or null, written by the serializer
      and read by the deserializer, comes back unchanged. */
  method SerializeThenRead(g: Option<Geometry>) returns (r: Result<Option<Geometry>>)
    requires g.Some? ==> Constructible(g.value)
    ensures r == Success(g)
  {
    var gen := new JsonGenerator();
    Serialize(g, gen);
    var parser := new JsonParser(gen.tokens);
    SerializeThenDeserialize(g, []);
    assert parser.Remaining() == SerializedTokens(g) + [];
    r := ReadGeometry(parser);
  }
}
