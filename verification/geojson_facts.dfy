/** Properties of GeoJSON collapsing: which type-tag combinations validate, what
    a collapse returns, and how the as-written extraction differs from the
    intended one. */
module GeojsonFacts {
  import opened Wrappers
  import opened BBox
  import opened BBoxFacts
  import opened Geojson

  // ---------------------------------------------------------------------------
  // Validation, characterised by families

  /** All extracted values carry the same type tag. */
  ghost predicate AllSameType(vs: seq<GeometryValue>)
  {
    forall i, j :: 0 <= i < |vs| && 0 <= j < |vs| ==> ValueTypeName(vs[i]) == ValueTypeName(vs[j])
  }

  /** All extracted values are geometries of family f. */
  ghost predicate InFamily(vs: seq<GeometryValue>, f: Family)
  {
    forall i :: 0 <= i < |vs| ==> vs[i].Geom? && FamilyOf(vs[i].geometry.kind) == f
  }

  function SingleOf(f: Family): GeometryKind
  {
    match f
    case PointFamily => Point
    case LineFamily => LineString
    case PolygonFamily => Polygon
  }

  function FamilyNames(f: Family): set<string>
  {
    {KindName(SingleOf(f)), KindName(MultiOf(f))}
  }

  lemma KindNameInjective(k1: GeometryKind, k2: GeometryKind)
    requires KindName(k1) == KindName(k2)
    ensures k1 == k2
  {
    assert KindName(k1)[0] == KindName(k2)[0];
    assert |KindName(k1)| == |KindName(k2)|;
    if KindName(k1)[0] == 'M' {
      assert KindName(k1)[5] == KindName(k2)[5];
    }
  }

  /** A value's tag is a tag of family f exactly when it is a geometry of that family. */
  lemma NameInFamily(v: GeometryValue, f: Family)
    ensures ValueTypeName(v) in FamilyNames(f) <==> v.Geom? && FamilyOf(v.geometry.kind) == f
  {
    if v.Geom? {
      if ValueTypeName(v) == KindName(SingleOf(f)) {
        KindNameInjective(v.geometry.kind, SingleOf(f));
      } else if ValueTypeName(v) == KindName(MultiOf(f)) {
        KindNameInjective(v.geometry.kind, MultiOf(f));
      }
    } else {
      assert ValueTypeName(v)[0] == 'G';
      assert KindName(SingleOf(f))[0] != 'G' && KindName(MultiOf(f))[0] != 'G';
    }
  }

  lemma TypeNamesOfOne(v: GeometryValue)
    ensures TypeNames([v]) == {ValueTypeName(v)}
  {
    assert ValueTypeName([v][0]) in TypeNames([v]);
  }

  lemma TypeNamesOfTwo(v: GeometryValue, w: GeometryValue)
    ensures TypeNames([v, w]) == {ValueTypeName(v), ValueTypeName(w)}
  {
    assert ValueTypeName([v, w][0]) in TypeNames([v, w]);
    assert ValueTypeName([v, w][1]) in TypeNames([v, w]);
  }

  lemma SingletonSet(ts: set<string>) returns (t: string)
    requires |ts| == 1
    ensures ts == {t}
  {
    t :| t in ts;
    assert |ts - {t}| == 0;
    assert ts - {t} == {};
  }

  lemma {:induction false} SameTypeValidates(vs: seq<GeometryValue>)
    requires AllSameType(vs)
    ensures CollapsibleTypes(TypeNames(vs))
  {
    if |vs| == 0 {
      assert TypeNames(vs) == {};
    } else {
      assert TypeNames(vs) == {ValueTypeName(vs[0])};
    }
  }

  lemma {:induction false} FamilyValidates(vs: seq<GeometryValue>, f: Family)
    requires InFamily(vs, f)
    ensures CollapsibleTypes(TypeNames(vs))
  {
    var ts := TypeNames(vs);
    var a, b := KindName(SingleOf(f)), KindName(MultiOf(f));
    forall t | t in ts ensures t == a || t == b {
      var i :| 0 <= i < |vs| && ValueTypeName(vs[i]) == t;
      NameInFamily(vs[i], f);
    }
    if a in ts && b in ts {
      assert ts == {a, b};
      match f
      case PointFamily =>
      case LineFamily =>
      case PolygonFamily =>
    } else if a in ts {
      assert ts == {a};
    } else if b in ts {
      assert ts == {b};
    } else {
      assert ts == {};
    }
  }

  lemma {:induction false} ValidatedIsSameTypeOrFamily(vs: seq<GeometryValue>)
    requires CollapsibleTypes(TypeNames(vs))
    ensures AllSameType(vs) || exists f :: InFamily(vs, f)
  {
    var ts := TypeNames(vs);
    forall i | 0 <= i < |vs| ensures ValueTypeName(vs[i]) in ts { }
    if |ts| == 1 {
      var t := SingletonSet(ts);
      assert AllSameType(vs);
    } else if ts == {} {
      assert AllSameType(vs);
    } else {
      var f := if ts == FamilyNames(PointFamily) then PointFamily
               else if ts == FamilyNames(LineFamily) then LineFamily
               else PolygonFamily;
      assert ts == FamilyNames(f);
      forall i | 0 <= i < |vs| ensures vs[i].Geom? && FamilyOf(vs[i].geometry.kind) == f {
        NameInFamily(vs[i], f);
      }
      assert InFamily(vs, f);
    }
  }

  /** _validate_geometries accepts a list exactly when all its members carry the
      same type tag, or all are geometries of one family (Point and MultiPoint,
      LineString and MultiLineString, or Polygon and MultiPolygon). */
  lemma ValidationCharacterization(vs: seq<GeometryValue>, geojsonType: string)
    ensures ValidateGeometries(vs, geojsonType).Pass? <==> AllSameType(vs) || exists f :: InFamily(vs, f)
  {
    if ValidateGeometries(vs, geojsonType).Pass? {
      ValidatedIsSameTypeOrFamily(vs);
    } else if AllSameType(vs) {
      SameTypeValidates(vs);
    } else if f :| InFamily(vs, f) {
      FamilyValidates(vs, f);
    }
  }

  /** Geometries of two different families never validate together. */
  lemma MixedFamiliesRejected(vs: seq<GeometryValue>, i: nat, j: nat, geojsonType: string)
    requires i < |vs| && j < |vs|
    requires vs[i].Geom? && vs[j].Geom?
    requires FamilyOf(vs[i].geometry.kind) != FamilyOf(vs[j].geometry.kind)
    ensures ValidateGeometries(vs, geojsonType) == Fail(InvalidGeometry(geojsonType))
  {
    if ValidateGeometries(vs, geojsonType).Pass? {
      ValidationCharacterization(vs, geojsonType);
      if AllSameType(vs) {
        assert KindName(vs[i].geometry.kind) == KindName(vs[j].geometry.kind);
        KindNameInjective(vs[i].geometry.kind, vs[j].geometry.kind);
      }
    }
  }

  // ---------------------------------------------------------------------------
  // Merging

  /** Every entry a family's geometries contribute is one single shape of the family. */
  lemma {:induction false} SpliceDepth(gs: seq<Geometry>, f: Family)
    requires forall i :: 0 <= i < |gs| ==> WellShaped(gs[i]) && FamilyOf(gs[i].kind) == f
    ensures forall k :: 0 <= k < |Splice(gs)| ==> HasDepth(Splice(gs)[k], BaseDepth(f))
  {
    if |gs| > 0 {
      SpliceDepth(gs[1..], f);
      var c := Contribution(gs[0]);
      forall k | 0 <= k < |c| ensures HasDepth(c[k], BaseDepth(f)) {
        if !IsSingle(gs[0].kind) {
          assert gs[0].coordinates.Array?;
        }
      }
      assert Splice(gs) == c + Splice(gs[1..]);
    }
  }

  /** Merging a list of geometries of one family always succeeds: with two or
      more it yields the family's multi-variant, whose coordinates are the
      contributions in order and which carries no stored bounding box. */
  lemma MergeOneFamily(gs: seq<Geometry>, f: Family)
    requires forall i :: 0 <= i < |gs| ==> WellShaped(gs[i]) && FamilyOf(gs[i].kind) == f
    ensures MergeGeometries(gs).Ok?
    ensures |gs| >= 2 ==> MergeGeometries(gs) == Ok(Some(Geometry(MultiOf(f), Array(Splice(gs)), None)))
    ensures MergeGeometries(gs).value.Some? ==> WellShaped(MergeGeometries(gs).value.value)
  {
    if |gs| >= 2 {
      assert FamilyOf(gs[|gs| - 1].kind) == f;
      SpliceDepth(gs, f);
      MultiShaped(Splice(gs), f);
    }
  }

  /** The merged type follows the last geometry, not the first: an empty
      MultiPoint followed by a LineString merges into a MultiLineString, while
      a MultiPoint over the same coordinates would not be well shaped. */
  lemma LastGeometryNamesMerge(l: Coords)
    requires HasDepth(l, 1)
    ensures var gs := [Geometry(MultiPoint, Array([]), None), Geometry(LineString, l, None)];
            && MergeGeometries(gs) == Ok(Some(Geometry(MultiLineString, Array([l]), None)))
            && !WellShaped(Geometry(MultiOf(FamilyOf(gs[0].kind)), Array(Splice(gs)), None))
  {
    var gs := [Geometry(MultiPoint, Array([]), None), Geometry(LineString, l, None)];
    assert Splice(gs) == [l] by {
      assert Splice(gs[1..]) == [l] + Splice(gs[2..]);
    }
    assert HasDepth(Array([l]), 2);
    assert WellShaped(Geometry(MultiLineString, Array([l]), None));
    assert l.Array? && !HasDepth(l, 0);
    assert !HasDepth(Array([l]), 1) by {
      assert Array([l]).items[0] == l;
    }
  }

  /** Single shapes of a family, listed, are well-shaped coordinates of its multi-variant. */
  lemma MultiShaped(cs: seq<Coords>, f: Family)
    requires forall k :: 0 <= k < |cs| ==> HasDepth(cs[k], BaseDepth(f))
    ensures WellShaped(Geometry(MultiOf(f), Array(cs), None))
  {
    assert Depth(MultiOf(f)) == BaseDepth(f) + 1;
  }

  /** The positions of the merged coordinates are those of the merged geometries, in order. */
  lemma {:induction false} SplicePreservesPoints(gs: seq<Geometry>)
    requires forall i :: 0 <= i < |gs| ==> WellShaped(gs[i]) && Points(gs[i].coordinates).Some?
    ensures PointsOf(Splice(gs)) == Some(AllPoints(gs))
  {
    if |gs| > 0 {
      SplicePreservesPoints(gs[1..]);
      var g := gs[0];
      assert PointsOf(Contribution(g)) == Points(g.coordinates) by {
        if IsSingle(g.kind) {
          WrappingKeepsPoints(g.coordinates);
        } else {
          assert g.coordinates.Array?;
        }
      }
      PointsOfAppend(Contribution(g), Splice(gs[1..]));
      assert Splice(gs) == Contribution(g) + Splice(gs[1..]);
    }
  }

  /** The positions of every geometry, concatenated in order. */
  ghost function AllPoints(gs: seq<Geometry>): seq<seq<real>>
    requires forall i :: 0 <= i < |gs| ==> Points(gs[i].coordinates).Some?
  {
    if |gs| == 0 then [] else Points(gs[0].coordinates).value + AllPoints(gs[1..])
  }

  // ---------------------------------------------------------------------------
  // Collapsing (intended extraction)

  /** Nothing to extract collapses to no geometry, validated or not. */
  lemma CollapseNothing(g: GeoJson, check: bool)
    requires ExtractGeometries(g) == []
    ensures CollapseGeometries(g, check) == Ok(None)
  {
    assert TypeNames(Values([])) == {};
  }

  /** Exactly one extracted geometry is returned unchanged, validated or not. */
  lemma CollapseOne(g: GeoJson, check: bool)
    requires |ExtractGeometries(g)| == 1
    ensures CollapseGeometries(g, check) == Ok(Some(ExtractGeometries(g)[0]))
  {
    var vs := Values(ExtractGeometries(g));
    assert TypeNames(vs) == {ValueTypeName(vs[0])};
  }

  /** Collapsing a bare geometry returns it: collapsing is idempotent. */
  lemma CollapseIdempotent(x: Geometry, check: bool)
    ensures CollapseGeometries(GeometryJson(Geom(x)), check) == Ok(Some(x))
    ensures CollapseAsWritten(GeometryJson(Geom(x)), check) == Ok(Some(Geom(x)))
  {
    CollapseOne(GeometryJson(Geom(x)), check);
    TypeNamesOfOne(Geom(x));
  }

  /** Input that fails validation is rejected when checking is on. */
  lemma CollapseRejectsInvalid(g: GeoJson)
    requires ValidateCollapsible(g).Fail?
    ensures CollapseGeometries(g, true) == Err(InvalidGeometry(TypeName(g)))
  {
  }

  /** Parsed input that validates collapses, whether or not validation is requested, to no
      geometry when nothing is extracted, to the extracted geometry itself when
      there is one, and otherwise to the multi-variant of their common family
      whose coordinates hold every extracted geometry's positions in order. */
  lemma CollapseValid(g: GeoJson, check: bool)
    requires Parsed(g) && ValidateCollapsible(g).Pass?
    ensures CollapseGeometries(g, check).Ok?
    ensures CollapseGeometries(g, check).value.None? <==> |ExtractGeometries(g)| == 0
    ensures CollapseGeometries(g, check).value.Some? ==> WellShaped(CollapseGeometries(g, check).value.value)
    ensures var gs := ExtractGeometries(g);
            |gs| >= 2 ==>
              && (forall i :: 0 <= i < |gs| ==> FamilyOf(gs[i].kind) == FamilyOf(gs[0].kind))
              && CollapseGeometries(g, check) == Ok(Some(Geometry(MultiOf(FamilyOf(gs[0].kind)), Array(Splice(gs)), None)))
  {
    var gs := ExtractGeometries(g);
    if |gs| == 0 {
      CollapseNothing(g, check);
    } else if |gs| == 1 {
      CollapseOne(g, check);
    } else {
      var vs := Values(gs);
      ValidationCharacterization(vs, TypeName(g));
      var f := FamilyOf(gs[0].kind);
      if AllSameType(vs) {
        forall i | 0 <= i < |gs| ensures FamilyOf(gs[i].kind) == f {
          assert ValueTypeName(vs[i]) == ValueTypeName(vs[0]);
          KindNameInjective(gs[i].kind, gs[0].kind);
        }
      } else {
        var f' :| InFamily(vs, f');
        assert vs[0] == Geom(gs[0]);
      }
      MergeOneFamily(gs, f);
    }
  }

  /** The collapsed geometry of several geometries holds exactly their positions,
      in order, so it has the bounding box of all of them together. */
  lemma CollapseKeepsPositions(g: GeoJson, check: bool)
    requires Parsed(g) && ValidateCollapsible(g).Pass?
    requires |ExtractGeometries(g)| >= 2
    requires forall i :: 0 <= i < |ExtractGeometries(g)| ==> Points(ExtractGeometries(g)[i].coordinates).Some?
    ensures CollapseGeometries(g, check).Ok? && CollapseGeometries(g, check).value.Some?
    ensures Points(CollapseGeometries(g, check).value.value.coordinates) == Some(AllPoints(ExtractGeometries(g)))
  {
    var gs := ExtractGeometries(g);
    CollapseValid(g, check);
    SplicePreservesPoints(gs);
    assert |Splice(gs)| > 0 by {
      assert |Contribution(gs[0])| > 0 by {
        if !IsSingle(gs[0].kind) {
          assert gs[0].coordinates.Array?;
        }
      }
      assert Splice(gs) == Contribution(gs[0]) + Splice(gs[1..]);
    }
  }

  // ---------------------------------------------------------------------------
  // Extraction

  lemma {:induction false} FlattenFeaturesAppend(fs1: seq<Feature>, fs2: seq<Feature>)
    ensures FlattenFeatures(fs1 + fs2) == FlattenFeatures(fs1) + FlattenFeatures(fs2)
  {
    if |fs1| == 0 {
      assert fs1 + fs2 == fs2;
    } else {
      TailOfAppend(fs1, fs2);
      FlattenFeaturesAppend(fs1[1..], fs2);
    }
  }

  lemma TailOfAppend(fs1: seq<Feature>, fs2: seq<Feature>)
    requires |fs1| > 0
    ensures (fs1 + fs2)[0] == fs1[0] && (fs1 + fs2)[1..] == fs1[1..] + fs2
  {
  }

  /** A feature collection extracts to the concatenation of the extractions of
      its parts, in feature order. */
  lemma FeatureCollectionConcatenates(fs1: seq<Feature>, fs2: seq<Feature>)
    ensures ExtractGeometries(FeatureCollection(fs1 + fs2))
         == ExtractGeometries(FeatureCollection(fs1)) + ExtractGeometries(FeatureCollection(fs2))
  {
    FlattenFeaturesAppend(fs1, fs2);
  }

  lemma {:induction false} ExtractFeaturesAsWrittenAppend(fs1: seq<Feature>, fs2: seq<Feature>)
    ensures ExtractFeaturesAsWritten(fs1 + fs2)
         == (match (ExtractFeaturesAsWritten(fs1), ExtractFeaturesAsWritten(fs2))
             case (Ok(a), Ok(b)) => Ok(a + b)
             case (Err(e), _) => Err(e)
             case (_, Err(e)) => Err(e))
  {
    if |fs1| == 0 {
      assert fs1 + fs2 == fs2;
      if ExtractFeaturesAsWritten(fs2).Ok? {
        assert [] + ExtractFeaturesAsWritten(fs2).value == ExtractFeaturesAsWritten(fs2).value;
      }
    } else {
      assert (fs1 + fs2)[0] == fs1[0];
      assert (fs1 + fs2)[1..] == fs1[1..] + fs2;
      ExtractFeaturesAsWrittenAppend(fs1[1..], fs2);
      match ExtractFeatureAsWritten(fs1[0])
      case Err(e) =>
      case Ok(head) =>
        match (ExtractFeaturesAsWritten(fs1[1..]), ExtractFeaturesAsWritten(fs2))
        case (Ok(a), Ok(b)) => assert head + (a + b) == (head + a) + b;
        case (Err(e), _) =>
        case (_, Err(e)) =>
    }
  }

  /** A feature collection as written extracts, in feature order, the
      concatenation of its parts' extractions, failing if either part fails. */
  lemma FeatureCollectionConcatenatesAsWritten(fs1: seq<Feature>, fs2: seq<Feature>)
    ensures ExtractAsWritten(FeatureCollection(fs1 + fs2))
         == (match (ExtractAsWritten(FeatureCollection(fs1)), ExtractAsWritten(FeatureCollection(fs2)))
             case (Ok(a), Ok(b)) => Ok(a + b)
             case (Err(e), _) => Err(e)
             case (_, Err(e)) => Err(e))
  {
    ExtractFeaturesAsWrittenAppend(fs1, fs2);
  }

  /** No feature lacks a geometry and no collection is nested in another. */
  ghost predicate FlatValue(v: GeometryValue)
  {
    v.GeometryCollection? ==> forall i :: 0 <= i < |v.geometries| ==> v.geometries[i].Geom?
  }

  ghost predicate FlatFeature(f: Feature)
  {
    f.geometry.Some? && FlatValue(f.geometry.value)
  }

  ghost predicate Flat(g: GeoJson)
  {
    match g
    case GeometryJson(v) => FlatValue(v)
    case FeatureJson(f) => FlatFeature(f)
    case FeatureCollection(fs) => forall i :: 0 <= i < |fs| ==> FlatFeature(fs[i])
  }

  lemma {:induction false} FlatValueAgrees(v: GeometryValue)
    requires FlatValue(v)
    ensures ExtractValueAsWritten(v) == Ok(Values(FlattenValue(v)))
  {
    match v
    case Geom(g) => assert Values([g]) == [v];
    case GeometryCollection(vs) => FlatMembersAgree(vs);
  }

  lemma {:induction false} FlatMembersAgree(vs: seq<GeometryValue>)
    requires forall i :: 0 <= i < |vs| ==> vs[i].Geom?
    ensures vs == Values(FlattenValues(vs))
  {
    if |vs| > 0 {
      FlatMembersAgree(vs[1..]);
      assert vs == [vs[0]] + vs[1..];
      assert Values(FlattenValues(vs)) == Values([vs[0].geometry] + FlattenValues(vs[1..]));
    }
  }

  lemma {:induction false} FlatFeaturesAgree(fs: seq<Feature>)
    requires forall i :: 0 <= i < |fs| ==> FlatFeature(fs[i])
    ensures ExtractFeaturesAsWritten(fs) == Ok(Values(FlattenFeatures(fs)))
  {
    if |fs| > 0 {
      var a, b := FlattenFeature(fs[0]), FlattenFeatures(fs[1..]);
      assert forall i :: 0 <= i < |fs[1..]| ==> fs[1..][i] == fs[i + 1];
      FlatFeaturesAgree(fs[1..]);
      FlatValueAgrees(fs[0].geometry.value);
      assert ExtractFeatureAsWritten(fs[0]) == Ok(Values(a));
      ValuesAppend(a, b);
    }
  }

  lemma ValuesAppend(a: seq<Geometry>, b: seq<Geometry>)
    ensures Values(a + b) == Values(a) + Values(b)
  {
    assert forall i :: 0 <= i < |a + b| ==> Values(a + b)[i] == (Values(a) + Values(b))[i];
  }

  /** On GeoJSON where every feature has a geometry and no collection is nested,
      the as-written extraction succeeds with exactly the intended geometries. */
  lemma AsWrittenAgreesOnFlatInput(g: GeoJson)
    requires Flat(g)
    ensures ExtractAsWritten(g) == Ok(Values(ExtractGeometries(g)))
  {
    match g
    case GeometryJson(v) => FlatValueAgrees(v);
    case FeatureJson(f) => FlatValueAgrees(f.geometry.value);
    case FeatureCollection(fs) => FlatFeaturesAgree(fs);
  }

  /** On flat GeoJSON, validation as written agrees with the intended validation. */
  lemma ValidateAgreesOnFlat(g: GeoJson)
    requires Flat(g)
    ensures ValidateCollapsibleAsWritten(g) == ValidateCollapsible(g)
  {
    AsWrittenAgreesOnFlatInput(g);
  }

  /** Merging geometries given as geometry values merges the geometries. */
  lemma MergeValuesOfGeometries(gs: seq<Geometry>)
    ensures MergeValues(Values(gs)) == Wrap(MergeGeometries(gs))
  {
    var vs := Values(gs);
    if |gs| >= 2 {
      assert !exists i :: 0 <= i < |vs| && vs[i].GeometryCollection?;
      assert seq(|vs|, i requires 0 <= i < |vs| => vs[i].geometry) == gs;
    }
  }

  /** On flat GeoJSON, collapsing as written gives the intended collapse, so
      every property of CollapseGeometries holds of the source there. */
  lemma CollapseAgreesOnFlat(g: GeoJson, check: bool)
    requires Flat(g)
    ensures CollapseAsWritten(g, check) == Wrap(CollapseGeometries(g, check))
  {
    AsWrittenAgreesOnFlatInput(g);
    MergeValuesOfGeometries(ExtractGeometries(g));
  }

  /** As written, exactly one extracted value is returned unchanged whether or
      not checking is on, and nothing extracted collapses to nothing. */
  lemma CollapseAsWrittenFew(g: GeoJson, check: bool)
    requires ExtractAsWritten(g).Ok? && |ExtractAsWritten(g).value| <= 1
    ensures |ExtractAsWritten(g).value| == 0 ==> CollapseAsWritten(g, check) == Ok(None)
    ensures |ExtractAsWritten(g).value| == 1 ==> CollapseAsWritten(g, check) == Ok(Some(ExtractAsWritten(g).value[0]))
  {
    var vs := ExtractAsWritten(g).value;
    if |vs| == 1 {
      assert TypeNames(vs) == {ValueTypeName(vs[0])};
    } else {
      assert TypeNames(vs) == {};
    }
  }

  // ---------------------------------------------------------------------------
  // Where the as-written extraction departs from the intended one

  /** A feature without geometry makes the as-written extraction, validation and
      collapse fail, although the source has a branch meant to yield nothing. */
  lemma NullFeatureFailsAsWritten(check: bool)
    ensures ExtractAsWritten(FeatureJson(Feature(None))) == Err(NullGeometry)
    ensures ValidateCollapsibleAsWritten(FeatureJson(Feature(None))) == Fail(NullGeometry)
    ensures CollapseAsWritten(FeatureJson(Feature(None)), check) == Err(NullGeometry)
  {
  }

  /** One feature without geometry anywhere in a feature collection makes the
      as-written extraction of the whole collection fail. */
  lemma NullFeatureInCollectionFailsAsWritten(fs1: seq<Feature>, fs2: seq<Feature>)
    requires ExtractFeaturesAsWritten(fs1).Ok?
    ensures ExtractAsWritten(FeatureCollection(fs1 + [Feature(None)] + fs2)) == Err(NullGeometry)
  {
    ExtractFeaturesAsWrittenAppend(fs1, [Feature(None)] + fs2);
    assert fs1 + [Feature(None)] + fs2 == fs1 + ([Feature(None)] + fs2);
  }

  /** Intended: a feature without geometry contributes nothing, wherever it is. */
  lemma NullFeatureContributesNothing(fs1: seq<Feature>, fs2: seq<Feature>)
    ensures ExtractGeometries(FeatureCollection(fs1 + [Feature(None)] + fs2))
         == ExtractGeometries(FeatureCollection(fs1 + fs2))
  {
    assert FlattenFeatures([Feature(None)] + fs2) == FlattenFeatures(fs2) by {
      FlattenFeaturesAppend([Feature(None)], fs2);
      assert FlattenFeatures([Feature(None)]) == [];
    }
    assert fs1 + [Feature(None)] + fs2 == fs1 + ([Feature(None)] + fs2);
    FlattenFeaturesAppend(fs1, [Feature(None)] + fs2);
    FlattenFeaturesAppend(fs1, fs2);
  }

  /** Intended: a lone feature without geometry extracts to nothing and passes
      validation. */
  lemma NullFeatureAlone()
    ensures ExtractGeometries(FeatureJson(Feature(None))) == []
    ensures ValidateCollapsible(FeatureJson(Feature(None))) == Pass
  {
    assert TypeNames(Values([])) == {};
  }

  /** A collection nesting a point and a line string passes the as-written
      validation (its only member tag is GeometryCollection), and the as-written
      collapse returns the inner collection, which is not a STAC geometry. */
  lemma NestedCollectionPassesAsWritten(p: Geometry, l: Geometry, check: bool)
    requires p.kind == Point && l.kind == LineString
    ensures ValidateCollapsibleAsWritten(GeometryJson(GeometryCollection([GeometryCollection([Geom(p), Geom(l)])]))) == Pass
    ensures CollapseAsWritten(GeometryJson(GeometryCollection([GeometryCollection([Geom(p), Geom(l)])])), check)
         == Ok(Some(GeometryCollection([Geom(p), Geom(l)])))
  {
    TypeNamesOfOne(GeometryCollection([Geom(p), Geom(l)]));
  }

  /** Two nested collections of points pass the as-written validation, yet the
      as-written collapse fails on them. */
  lemma NestedCollectionsFailAsWritten(p: Geometry, q: Geometry)
    requires p.kind == Point && q.kind == Point
    ensures ValidateCollapsibleAsWritten(GeometryJson(GeometryCollection(
              [GeometryCollection([Geom(p)]), GeometryCollection([Geom(q)])]))) == Pass
    ensures CollapseAsWritten(GeometryJson(GeometryCollection(
              [GeometryCollection([Geom(p)]), GeometryCollection([Geom(q)])])), true) == Err(MissingCoordinates)
  {
    var vs := [GeometryCollection([Geom(p)]), GeometryCollection([Geom(q)])];
    TypeNamesOfTwo(vs[0], vs[1]);
    assert vs[0].GeometryCollection?;
  }

  /** Intended: nested collections are flattened, so a point and a line string
      are rejected however deeply they are nested. */
  lemma NestedCollectionRejected(p: Geometry, l: Geometry)
    requires p.kind == Point && l.kind == LineString
    ensures ExtractGeometries(GeometryJson(GeometryCollection([GeometryCollection([Geom(p), Geom(l)])]))) == [p, l]
    ensures ValidateCollapsible(GeometryJson(GeometryCollection([GeometryCollection([Geom(p), Geom(l)])])))
         == Fail(InvalidGeometry("GeometryCollection"))
  {
    var inner := [Geom(p), Geom(l)];
    assert inner[1..] == [Geom(l)];
    assert FlattenValues([Geom(l)]) == [l];
    assert FlattenValues(inner) == [p, l];
    var outer := [GeometryCollection(inner)];
    assert FlattenValues(outer) == [p, l] + FlattenValues(outer[1..]);
    assert outer[1..] == [];
    var vs := Values([p, l]);
    MixedFamiliesRejected(vs, 0, 1, "GeometryCollection");
  }
}
