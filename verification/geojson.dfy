/** Collapsing GeoJSON into a single STAC geometry (marble_api/utils/geojson.py).

    A GeoJSON value is a geometry, a geometry collection, a feature or a feature
    collection. Collapsing flattens it into a list of geometries, checks that
    their type tags can be represented by one STAC geometry (all of one type, or
    the single and multi variants of one family), and merges the list into one
    multi-geometry.

    The source's extraction has two quirks that are modelled as written
    (ExtractAsWritten): a feature without a geometry makes it fail, because the
    type tag is read before the test for a missing value; and the members of a
    geometry collection are returned as they are, so a nested collection stays
    nested. ExtractGeometries is the evidently intended extraction, which skips
    missing geometries and flattens every collection; CollapseGeometries uses it. */
module Geojson {
  import opened Wrappers
  import opened BBox

  /** The six geometry types STAC admits. */
  datatype GeometryKind = Point | MultiPoint | LineString | MultiLineString | Polygon | MultiPolygon

  /** A single geometry type and its multi-variant form a family. */
  datatype Family = PointFamily | LineFamily | PolygonFamily

  /** The GeoJSON "type" tag of a geometry kind. */
  function KindName(k: GeometryKind): string
  {
    match k
    case Point => "Point"
    case MultiPoint => "MultiPoint"
    case LineString => "LineString"
    case MultiLineString => "MultiLineString"
    case Polygon => "Polygon"
    case MultiPolygon => "MultiPolygon"
  }

  function FamilyOf(k: GeometryKind): Family
  {
    match k
    case Point | MultiPoint => PointFamily
    case LineString | MultiLineString => LineFamily
    case Polygon | MultiPolygon => PolygonFamily
  }

  /** The multi-variant a family collapses into. */
  function MultiOf(f: Family): GeometryKind
  {
    match f
    case PointFamily => MultiPoint
    case LineFamily => MultiLineString
    case PolygonFamily => MultiPolygon
  }

  /** Point, LineString and Polygon: one shape, not a list of them. */
  predicate IsSingle(k: GeometryKind)
  {
    k == Point || k == LineString || k == Polygon
  }

  /** Array nesting of a family's single shape: a position, a list of positions,
      a list of rings. */
  function BaseDepth(f: Family): nat
  {
    match f
    case PointFamily => 0
    case LineFamily => 1
    case PolygonFamily => 2
  }

  /** Array nesting of a kind's coordinates: a multi-variant nests one deeper. */
  function Depth(k: GeometryKind): nat
  {
    if IsSingle(k) then BaseDepth(FamilyOf(k)) else BaseDepth(FamilyOf(k)) + 1
  }

  /** c is nested exactly d arrays deep over positions of two or three numbers. */
  predicate HasDepth(c: Coords, d: nat)
    decreases c
  {
    match c
    case Position(values) => d == 0 && 2 <= |values| <= 3
    case Array(items) => d > 0 && forall i :: 0 <= i < |items| ==> HasDepth(items[i], d - 1)
  }

  /** A geometry: its type tag, its coordinates and an optional stored bounding box. */
  datatype Geometry = Geometry(kind: GeometryKind, coordinates: Coords, bbox: Option<seq<real>>)

  /** The coordinates have the nesting the geometry's type prescribes. */
  predicate WellShaped(g: Geometry)
  {
    HasDepth(g.coordinates, Depth(g.kind))
  }

  /** A geometry value as a GeoJSON document may hold it: one of the six STAC
      geometries or a geometry collection, whose members may again be collections. */
  datatype GeometryValue = Geom(geometry: Geometry) | GeometryCollection(geometries: seq<GeometryValue>)

  /** A feature, reduced to its (possibly missing) geometry. */
  datatype Feature = Feature(geometry: Option<GeometryValue>)

  datatype GeoJson =
    | GeometryJson(value: GeometryValue)
    | FeatureJson(feature: Feature)
    | FeatureCollection(features: seq<Feature>)

  datatype GeoError =
    | InvalidGeometry(geojsonType: string) // the type tags cannot be collapsed
    | NullGeometry                         // a feature without geometry was read as a geometry
    | MissingCoordinates                   // a geometry collection was merged as if it had coordinates
    | InvalidConstruction                  // the merged coordinates do not fit the merged type

  function ValueTypeName(v: GeometryValue): string
  {
    match v
    case Geom(g) => KindName(g.kind)
    case GeometryCollection(_) => "GeometryCollection"
  }

  function TypeName(g: GeoJson): string
  {
    match g
    case GeometryJson(v) => ValueTypeName(v)
    case FeatureJson(_) => "Feature"
    case FeatureCollection(_) => "FeatureCollection"
  }

  /** Every geometry anywhere in the value is well shaped, as parsing guarantees. */
  ghost predicate ParsedValue(v: GeometryValue)
  {
    match v
    case Geom(g) => WellShaped(g)
    case GeometryCollection(gs) => forall i :: 0 <= i < |gs| ==> ParsedValue(gs[i])
  }

  ghost predicate ParsedFeature(f: Feature)
  {
    f.geometry.Some? ==> ParsedValue(f.geometry.value)
  }

  ghost predicate Parsed(g: GeoJson)
  {
    match g
    case GeometryJson(v) => ParsedValue(v)
    case FeatureJson(f) => ParsedFeature(f)
    case FeatureCollection(fs) => forall i :: 0 <= i < |fs| ==> ParsedFeature(fs[i])
  }

  /** The geometries wrapped as geometry values. */
  function Values(gs: seq<Geometry>): (vs: seq<GeometryValue>)
    ensures |vs| == |gs|
    ensures forall i :: 0 <= i < |gs| ==> vs[i] == Geom(gs[i])
  {
    seq(|gs|, i requires 0 <= i < |gs| => Geom(gs[i]))
  }

  // ---------------------------------------------------------------------------
  // Extraction as the source writes it

  /** _extract_geometries applied to a feature's geometry. A missing geometry
      fails: its type tag is read before the test for a missing value. */
  function ExtractFeatureAsWritten(f: Feature): (r: Result<seq<GeometryValue>, GeoError>)
    ensures r.Err? <==> f.geometry.None?
    ensures r.Err? ==> r.error == NullGeometry
  {
    match f.geometry
    case None => Err(NullGeometry)
    case Some(v) => ExtractValueAsWritten(v)
  }

  /** A geometry collection yields its members unflattened; a geometry yields itself. */
  function ExtractValueAsWritten(v: GeometryValue): Result<seq<GeometryValue>, GeoError>
  {
    match v
    case GeometryCollection(gs) => Ok(gs)
    case Geom(_) => Ok([v])
  }

  /** The extracted geometries of each feature, concatenated in feature order. */
  function ExtractFeaturesAsWritten(fs: seq<Feature>): (r: Result<seq<GeometryValue>, GeoError>)
    ensures r.Err? <==> exists i :: 0 <= i < |fs| && fs[i].geometry.None?
    ensures r.Err? ==> r.error == NullGeometry
  {
    if |fs| == 0 then Ok([])
    else
      assert forall i :: 1 <= i < |fs| ==> fs[i] == fs[1..][i - 1];
      var head :- ExtractFeatureAsWritten(fs[0]);
      var tail :- ExtractFeaturesAsWritten(fs[1..]);
      Ok(head + tail)
  }

  /** _extract_geometries as written. It fails exactly when some feature has
      no geometry. */
  function ExtractAsWritten(g: GeoJson): (r: Result<seq<GeometryValue>, GeoError>)
    ensures r.Err? <==> || (g.FeatureJson? && g.feature.geometry.None?)
                        || (g.FeatureCollection? && exists i :: 0 <= i < |g.features| && g.features[i].geometry.None?)
    ensures r.Err? ==> r.error == NullGeometry
  {
    match g
    case FeatureCollection(fs) => ExtractFeaturesAsWritten(fs)
    case FeatureJson(f) => ExtractFeatureAsWritten(f)
    case GeometryJson(v) => ExtractValueAsWritten(v)
  }

  // ---------------------------------------------------------------------------
  // Extraction as intended: every leaf geometry, in document order

  function FlattenValue(v: GeometryValue): (r: seq<Geometry>)
    ensures ParsedValue(v) ==> forall i :: 0 <= i < |r| ==> WellShaped(r[i])
    decreases v
  {
    match v
    case Geom(g) => [g]
    case GeometryCollection(gs) => FlattenValues(gs)
  }

  function FlattenValues(vs: seq<GeometryValue>): (r: seq<Geometry>)
    ensures (forall i :: 0 <= i < |vs| ==> ParsedValue(vs[i])) ==> forall i :: 0 <= i < |r| ==> WellShaped(r[i])
    decreases vs
  {
    if |vs| == 0 then []
    else
      assert forall i :: 0 <= i < |vs[1..]| ==> vs[1..][i] == vs[i + 1];
      FlattenValue(vs[0]) + FlattenValues(vs[1..])
  }

  function FlattenFeature(f: Feature): (r: seq<Geometry>)
    ensures ParsedFeature(f) ==> forall i :: 0 <= i < |r| ==> WellShaped(r[i])
  {
    match f.geometry
    case None => []
    case Some(v) => FlattenValue(v)
  }

  function FlattenFeatures(fs: seq<Feature>): (r: seq<Geometry>)
    ensures (forall i :: 0 <= i < |fs| ==> ParsedFeature(fs[i])) ==> forall i :: 0 <= i < |r| ==> WellShaped(r[i])
  {
    if |fs| == 0 then []
    else
      assert forall i :: 0 <= i < |fs[1..]| ==> fs[1..][i] == fs[i + 1];
      FlattenFeature(fs[0]) + FlattenFeatures(fs[1..])
  }

  /** All leaf geometries of a GeoJSON value in document order: collections of
      any depth are flattened and features without a geometry contribute nothing. */
  function ExtractGeometries(g: GeoJson): (r: seq<Geometry>)
    ensures Parsed(g) ==> forall i :: 0 <= i < |r| ==> WellShaped(r[i])
  {
    match g
    case FeatureCollection(fs) => FlattenFeatures(fs)
    case FeatureJson(f) => FlattenFeature(f)
    case GeometryJson(v) => FlattenValue(v)
  }

  // ---------------------------------------------------------------------------
  // Validation

  /** The set of type tags of the extracted geometries. */
  function TypeNames(vs: seq<GeometryValue>): set<string>
  {
    set i | 0 <= i < |vs| :: ValueTypeName(vs[i])
  }

  /** The tag sets the source accepts: one tag, none, or exactly the single and
      multi tags of one family. */
  predicate CollapsibleTypes(ts: set<string>)
  {
    || |ts| == 1
    || ts == {}
    || ts == {"Point", "MultiPoint"}
    || ts == {"LineString", "MultiLineString"}
    || ts == {"Polygon", "MultiPolygon"}
  }

  /** _validate_geometries */
  function ValidateGeometries(vs: seq<GeometryValue>, geojsonType: string): (r: Outcome<GeoError>)
    ensures r.Fail? ==> r == Fail(InvalidGeometry(geojsonType))
    ensures |vs| <= 1 ==> r.Pass?
  {
    assert |vs| == 1 ==> TypeNames(vs) == {ValueTypeName(vs[0])};
    if CollapsibleTypes(TypeNames(vs)) then Pass else Fail(InvalidGeometry(geojsonType))
  }

  /** validate_collapsible as written. */
  function ValidateCollapsibleAsWritten(g: GeoJson): (r: Outcome<GeoError>)
    ensures ExtractAsWritten(g).Err? ==> r == Fail(NullGeometry)
    ensures ExtractAsWritten(g).Ok? && r.Fail? ==> r == Fail(InvalidGeometry(TypeName(g)))
    ensures ExtractAsWritten(g).Ok? && |ExtractAsWritten(g).value| <= 1 ==> r.Pass?
  {
    match ExtractAsWritten(g)
    case Err(e) => Fail(e)
    case Ok(vs) => ValidateGeometries(vs, TypeName(g))
  }

  /** validate_collapsible over the intended extraction. */
  function ValidateCollapsible(g: GeoJson): (r: Outcome<GeoError>)
    ensures r.Fail? ==> r == Fail(InvalidGeometry(TypeName(g)))
    ensures |ExtractGeometries(g)| <= 1 ==> r.Pass?
  {
    ValidateGeometries(Values(ExtractGeometries(g)), TypeName(g))
  }

  // ---------------------------------------------------------------------------
  // Merging

  /** What one geometry adds to the merged coordinate list: a single shape is
      appended as one entry, a multi-geometry's entries are spliced in. */
  function Contribution(g: Geometry): seq<Coords>
  {
    if IsSingle(g.kind) then [g.coordinates]
    else match g.coordinates
      case Array(items) => items
      case Position(_) => [g.coordinates]
  }

  function Splice(gs: seq<Geometry>): seq<Coords>
  {
    if |gs| == 0 then [] else Contribution(gs[0]) + Splice(gs[1..])
  }

  /** The tail of collapse_geometries for a list of STAC geometries: none gives
      nothing, one is returned unchanged, several are merged into the
      multi-variant of the last geometry's family. Constructing that
      multi-geometry fails when the merged coordinates do not have its shape. */
  function MergeGeometries(gs: seq<Geometry>): (r: Result<Option<Geometry>, GeoError>)
    ensures r.Err? ==> |gs| >= 2 && r.error == InvalidConstruction
    ensures r.Ok? ==> (r.value.None? <==> |gs| == 0)
    ensures r.Ok? && |gs| >= 2 ==> && r.value.Some? && !IsSingle(r.value.value.kind)
                                   && r.value.value.kind == MultiOf(FamilyOf(gs[|gs| - 1].kind))
                                   && r.value.value.coordinates == Array(Splice(gs))
    ensures r.Ok? && r.value.Some? && (forall i :: 0 <= i < |gs| ==> WellShaped(gs[i])) ==> WellShaped(r.value.value)
  {
    if |gs| == 0 then Ok(None)
    else if |gs| == 1 then Ok(Some(gs[0]))
    else
      var merged := Geometry(MultiOf(FamilyOf(gs[|gs| - 1].kind)), Array(Splice(gs)), None);
      if WellShaped(merged) then Ok(Some(merged)) else Err(InvalidConstruction)
  }

  /** The tail of collapse_geometries for extracted values as written: a single
      value is returned even when it is a collection, and merging several fails
      on a collection, which has no coordinates. */
  function MergeValues(vs: seq<GeometryValue>): (r: Result<Option<GeometryValue>, GeoError>)
    ensures r.Err? ==> |vs| >= 2
    ensures r == Err(MissingCoordinates) <==> |vs| >= 2 && exists i :: 0 <= i < |vs| && vs[i].GeometryCollection?
    ensures r.Ok? ==> (r.value.None? <==> |vs| == 0)
    ensures r.Ok? && |vs| >= 2 ==> r.value.Some? && r.value.value.Geom?
  {
    if |vs| == 0 then Ok(None)
    else if |vs| == 1 then Ok(Some(vs[0]))
    else if exists i :: 0 <= i < |vs| && vs[i].GeometryCollection? then Err(MissingCoordinates)
    else
      var gs := seq(|vs|, i requires 0 <= i < |vs| => vs[i].geometry);
      var merged :- MergeGeometries(gs);
      Ok(Some(Geom(merged.value)))
  }

  /** collapse_geometries as written. With the check on, it fails exactly as
      validate_collapsible does. */
  function CollapseAsWritten(g: GeoJson, check: bool): (r: Result<Option<GeometryValue>, GeoError>)
    ensures ExtractAsWritten(g).Err? ==> r == Err(NullGeometry)
    ensures check && ValidateCollapsibleAsWritten(g).Fail? ==> r == Err(ValidateCollapsibleAsWritten(g).error)
    ensures r.Err? && r.error.InvalidGeometry? ==> check
  {
    var vs :- ExtractAsWritten(g);
    if check && ValidateGeometries(vs, TypeName(g)).Fail? then Err(InvalidGeometry(TypeName(g)))
    else MergeValues(vs)
  }

  /** collapse_geometries over the intended extraction. It fails only when the
      check is on and refuses the type tags, or when the merged coordinates do
      not fit the merged type. */
  function CollapseGeometries(g: GeoJson, check: bool): (r: Result<Option<Geometry>, GeoError>)
    ensures r.Err? ==> (check && r == Err(InvalidGeometry(TypeName(g)))) || r == Err(InvalidConstruction)
    ensures r.Ok? ==> (r.value.None? <==> |ExtractGeometries(g)| == 0)
  {
    var gs := ExtractGeometries(g);
    if check && ValidateGeometries(Values(gs), TypeName(g)).Fail? then Err(InvalidGeometry(TypeName(g)))
    else MergeGeometries(gs)
  }

  /** A collapse result over geometries, seen as a result over geometry values. */
  function Wrap(r: Result<Option<Geometry>, GeoError>): (w: Result<Option<GeometryValue>, GeoError>)
    ensures w.Err? <==> r.Err?
    ensures r.Err? ==> w.error == r.error
    ensures r.Ok? ==> (w.value.None? <==> r.value.None?)
    ensures r.Ok? && r.value.Some? ==> w.value.value == Geom(r.value.value)
  {
    match r
    case Err(e) => Err(e)
    case Ok(None) => Ok(None)
    case Ok(Some(x)) => Ok(Some(Geom(x)))
  }
}
