/** Data requests (marble_api/versions/v1/data_request/models.py).

    A data request is a record describing a dataset somebody asks to publish:
    who asks, a title and description, authors, an optional geometry, a period
    of one or two instants, links, a path, a contact and free-form extra
    properties. Validation rejects text and list fields that are present but
    empty, a geometry whose coordinates do not have the nesting its type
    prescribes, and a period that is not one or two instants long, and stores
    the period sorted. An update names a subset of the fields; a public record adds
    the store identifier and projects to a STAC item. */
module Models {
  import opened Wrappers
  import opened BBox
  import opened Geojson

  // ---------------------------------------------------------------------------
  // Instants

  /** A timezone-aware instant: microseconds since the epoch in UTC, and the UTC
      offset it was written with. Instants compare and hash by their UTC value
      only; the offset shows only in their ISO 8601 rendering. */
  datatype Instant = Instant(utcMicros: int, offsetMinutes: int)

  predicate SameInstant(a: Instant, b: Instant)
  {
    a.utcMicros == b.utcMicros
  }

  predicate NotAfter(a: Instant, b: Instant)
  {
    a.utcMicros <= b.utcMicros
  }

  predicate Ascending(t: seq<Instant>)
  {
    forall i, j :: 0 <= i < j < |t| ==> NotAfter(t[i], t[j])
  }

  /** The period's length bound, checked before it is sorted. */
  predicate TemporalLengthOk(t: seq<Instant>)
  {
    1 <= |t| <= 2
  }

  /** `sorted` applied to a period that passed the length bound: a stable sort,
      so instants that are the same moment keep their written order. */
  function SortTemporal(t: seq<Instant>): (r: seq<Instant>)
    requires |t| <= 2
    ensures |r| == |t|
    ensures multiset(r) == multiset(t)
    ensures Ascending(r)
    ensures Ascending(t) ==> r == t
  {
    if |t| == 2 && t[1].utcMicros < t[0].utcMicros then
      assert t == [t[0], t[1]];
      [t[1], t[0]]
    else t
  }

  // ---------------------------------------------------------------------------
  // Records

  /** An author: an optional first name, a last name, an optional e-mail address. */
  datatype Author = Author(firstName: Option<string>, lastName: string, email: Option<string>)

  /** A STAC link. */
  datatype Link = Link(href: string, rel: string, mediaType: Option<string>)

  /** A data request as stored, without its identifier. */
  datatype DataRequest = DataRequest(
    user: string,
    title: string,
    description: Option<string>,
    authors: seq<Author>,
    geometry: Option<Geometry>,
    temporal: seq<Instant>,
    links: seq<Link>,
    path: string,
    contact: string,
    additionalPaths: seq<string>,
    variables: seq<string>,
    extraProperties: map<string, string>)

  /** Validation failures, by field name. */
  datatype ValidationError = ValidationError(fields: set<string>)

  /** The fields that must be non-empty when they are present. */
  const NonEmptyIfSetFields: set<string> := {"user", "title", "description", "authors", "path", "contact"}

  /** The field names whose values validation constrains. */
  const CheckedFields: set<string> := NonEmptyIfSetFields + {"geometry", "temporal"}

  /** Validation of a whole record rejects the named field. */
  predicate FieldRejected(d: DataRequest, field: string)
  {
    if field == "user" then |d.user| == 0
    else if field == "title" then |d.title| == 0
    else if field == "description" then d.description == Some("")
    else if field == "authors" then |d.authors| == 0
    else if field == "path" then |d.path| == 0
    else if field == "contact" then |d.contact| == 0
    else if field == "geometry" then d.geometry.Some? && !WellShaped(d.geometry.value)
    else if field == "temporal" then !TemporalLengthOk(d.temporal)
    else false
  }

  /** Every field constraint of a record holds, the period's order aside. */
  predicate Acceptable(d: DataRequest)
  {
    |d.user| > 0 && |d.title| > 0 && d.description != Some("") && |d.authors| > 0 &&
    |d.path| > 0 && |d.contact| > 0 && (d.geometry.Some? ==> WellShaped(d.geometry.value)) &&
    TemporalLengthOk(d.temporal)
  }

  /** A validated record: acceptable, with its period in ascending order. */
  predicate ValidRecord(d: DataRequest)
  {
    Acceptable(d) && Ascending(d.temporal)
  }

  function RejectedFields(d: DataRequest): (fs: set<string>)
    ensures forall f :: f in fs <==> FieldRejected(d, f)
    ensures fs == {} <==> Acceptable(d)
  {
    var fs := set f | f in CheckedFields && FieldRejected(d, f);
    assert |d.user| == 0 ==> "user" in fs;
    assert |d.title| == 0 ==> "title" in fs;
    assert d.description == Some("") ==> "description" in fs;
    assert |d.authors| == 0 ==> "authors" in fs;
    assert |d.path| == 0 ==> "path" in fs;
    assert |d.contact| == 0 ==> "contact" in fs;
    assert d.geometry.Some? && !WellShaped(d.geometry.value) ==> "geometry" in fs;
    assert !TemporalLengthOk(d.temporal) ==> "temporal" in fs;
    fs
  }

  /** Validating a record: every field constraint at once, then the period
      sorted. */
  function ValidateDataRequest(d: DataRequest): (r: Result<DataRequest, ValidationError>)
    ensures r.Ok? <==> Acceptable(d)
    ensures r.Ok? ==> ValidRecord(r.value)
    ensures r.Ok? ==> r.value.(temporal := d.temporal) == d
    ensures r.Ok? ==> multiset(r.value.temporal) == multiset(d.temporal)
    ensures r.Err? ==> r.error.fields != {}
    ensures r.Err? ==> forall f :: f in r.error.fields <==> FieldRejected(d, f)
  {
    var rejected := RejectedFields(d);
    if rejected == {} then Ok(d.(temporal := SortTemporal(d.temporal)))
    else Err(ValidationError(rejected))
  }

  // ---------------------------------------------------------------------------
  // Updates

  /** A field of an update: left out of the request, given as null, or given a value. */
  datatype Field<T> = Unset | Null | Set(value: T)

  /** An update: every field of a record may be given, and an identifier may be
      given too, but the identifier is never written (it is excluded from the
      fields an update dumps). */
  datatype DataRequestUpdate = DataRequestUpdate(
    id: Field<string>,
    user: Field<string>,
    title: Field<string>,
    description: Field<string>,
    authors: Field<seq<Author>>,
    geometry: Field<Geometry>,
    temporal: Field<seq<Instant>>,
    links: Field<seq<Link>>,
    path: Field<string>,
    contact: Field<string>,
    additionalPaths: Field<seq<string>>,
    variables: Field<seq<string>>,
    extraProperties: Field<map<string, string>>)

  /** The record fields an update can write. */
  const RecordFields: set<string> :=
    {"user", "title", "description", "authors", "geometry", "temporal", "links", "path", "contact",
     "additional_paths", "variables", "extra_properties"}

  /** The named field is given in the update (with a value or as null). */
  predicate Supplied(u: DataRequestUpdate, field: string)
  {
    if field == "user" then !u.user.Unset?
    else if field == "title" then !u.title.Unset?
    else if field == "description" then !u.description.Unset?
    else if field == "authors" then !u.authors.Unset?
    else if field == "geometry" then !u.geometry.Unset?
    else if field == "temporal" then !u.temporal.Unset?
    else if field == "links" then !u.links.Unset?
    else if field == "path" then !u.path.Unset?
    else if field == "contact" then !u.contact.Unset?
    else if field == "additional_paths" then !u.additionalPaths.Unset?
    else if field == "variables" then !u.variables.Unset?
    else if field == "extra_properties" then !u.extraProperties.Unset?
    else false
  }

  /** The names of the fields an update writes. */
  function UpdatedFields(u: DataRequestUpdate): (fs: set<string>)
    ensures forall f :: f in fs <==> Supplied(u, f)
    ensures "id" !in fs
  {
    set f | f in RecordFields && Supplied(u, f)
  }

  /** Validation of an update rejects the named field: the record's field
      constraints apply to given values, and null is refused wherever the record's
      field is not optional. Leaving a field out is always accepted. */
  predicate UpdateFieldRejected(u: DataRequestUpdate, field: string)
  {
    if field == "user" then u.user == Null || u.user == Set("")
    else if field == "title" then u.title == Null || u.title == Set("")
    else if field == "description" then u.description == Set("")
    else if field == "authors" then u.authors == Null || u.authors == Set([])
    else if field == "geometry" then u.geometry.Set? && !WellShaped(u.geometry.value)
    else if field == "temporal" then u.temporal == Null || (u.temporal.Set? && !TemporalLengthOk(u.temporal.value))
    else if field == "links" then u.links == Null
    else if field == "path" then u.path == Null || u.path == Set("")
    else if field == "contact" then u.contact == Null || u.contact == Set("")
    else if field == "additional_paths" then u.additionalPaths == Null
    else if field == "variables" then u.variables == Null
    else if field == "extra_properties" then u.extraProperties == Null
    else false
  }

  /** A validated update: no field rejected, and a given period in ascending order. */
  predicate ValidUpdate(u: DataRequestUpdate)
  {
    (forall f :: f in RecordFields ==> !UpdateFieldRejected(u, f)) &&
    (u.temporal.Set? ==> Ascending(u.temporal.value))
  }

  function RejectedUpdateFields(u: DataRequestUpdate): (fs: set<string>)
    ensures forall f :: f in fs <==> UpdateFieldRejected(u, f)
  {
    set f | f in RecordFields && UpdateFieldRejected(u, f)
  }

  /** Validating an update: the field constraints, then a given period sorted. */
  function ValidateUpdate(u: DataRequestUpdate): (r: Result<DataRequestUpdate, ValidationError>)
    ensures r.Ok? <==> forall f :: !UpdateFieldRejected(u, f)
    ensures r.Ok? ==> ValidUpdate(r.value)
    ensures r.Ok? ==> r.value.(temporal := u.temporal) == u
    ensures r.Ok? ==> (r.value.temporal.Set? <==> u.temporal.Set?)
    ensures r.Ok? && u.temporal.Set? ==> multiset(r.value.temporal.value) == multiset(u.temporal.value)
    ensures r.Err? ==> r.error.fields != {}
    ensures r.Err? ==> forall f :: f in r.error.fields <==> UpdateFieldRejected(u, f)
  {
    var rejected := RejectedUpdateFields(u);
    if rejected == {} then
      assert !UpdateFieldRejected(u, "temporal");
      var temporal := if u.temporal.Set? then Set(SortTemporal(u.temporal.value)) else u.temporal;
      var sorted := u.(temporal := temporal);
      assert forall f :: UpdateFieldRejected(sorted, f) ==> UpdateFieldRejected(u, f);
      Ok(sorted)
    else
      Err(ValidationError(rejected))
  }

  /** The value of a non-optional field after the update: a given value replaces
      the stored one. */
  function Overwrite<T>(f: Field<T>, stored: T): T
  {
    if f.Set? then f.value else stored
  }

  /** The value of an optional field after the update: a given value or a given
      null replaces the stored one. */
  function OverwriteOptional<T>(f: Field<T>, stored: Option<T>): Option<T>
  {
    match f
    case Set(v) => Some(v)
    case Null => None
    case Unset => stored
  }

  /** The two records agree on every field outside `fields`. */
  predicate AgreeOutside(d1: DataRequest, d2: DataRequest, fields: set<string>)
  {
    ("user" !in fields ==> d1.user == d2.user) &&
    ("title" !in fields ==> d1.title == d2.title) &&
    ("description" !in fields ==> d1.description == d2.description) &&
    ("authors" !in fields ==> d1.authors == d2.authors) &&
    ("geometry" !in fields ==> d1.geometry == d2.geometry) &&
    ("temporal" !in fields ==> d1.temporal == d2.temporal) &&
    ("links" !in fields ==> d1.links == d2.links) &&
    ("path" !in fields ==> d1.path == d2.path) &&
    ("contact" !in fields ==> d1.contact == d2.contact) &&
    ("additional_paths" !in fields ==> d1.additionalPaths == d2.additionalPaths) &&
    ("variables" !in fields ==> d1.variables == d2.variables) &&
    ("extra_properties" !in fields ==> d1.extraProperties == d2.extraProperties)
  }

  /** Every value the update gives is the record's value of that field; a null
      given for an optional field leaves it absent. */
  predicate Carries(d: DataRequest, u: DataRequestUpdate)
  {
    (u.user.Set? ==> d.user == u.user.value) &&
    (u.title.Set? ==> d.title == u.title.value) &&
    (u.description.Set? ==> d.description == Some(u.description.value)) &&
    (u.description.Null? ==> d.description.None?) &&
    (u.authors.Set? ==> d.authors == u.authors.value) &&
    (u.geometry.Set? ==> d.geometry == Some(u.geometry.value)) &&
    (u.geometry.Null? ==> d.geometry.None?) &&
    (u.temporal.Set? ==> d.temporal == u.temporal.value) &&
    (u.links.Set? ==> d.links == u.links.value) &&
    (u.path.Set? ==> d.path == u.path.value) &&
    (u.contact.Set? ==> d.contact == u.contact.value) &&
    (u.additionalPaths.Set? ==> d.additionalPaths == u.additionalPaths.value) &&
    (u.variables.Set? ==> d.variables == u.variables.value) &&
    (u.extraProperties.Set? ==> d.extraProperties == u.extraProperties.value)
  }

  /** The stored record after the store sets the update's fields on it. A
      validated update never gives null for a non-optional field; such a field
      would be left as stored. */
  function ApplyUpdate(d: DataRequest, u: DataRequestUpdate): (r: DataRequest)
    ensures AgreeOutside(r, d, UpdatedFields(u))
    ensures Carries(r, u)
  {
    DataRequest(
      Overwrite(u.user, d.user),
      Overwrite(u.title, d.title),
      OverwriteOptional(u.description, d.description),
      Overwrite(u.authors, d.authors),
      OverwriteOptional(u.geometry, d.geometry),
      Overwrite(u.temporal, d.temporal),
      Overwrite(u.links, d.links),
      Overwrite(u.path, d.path),
      Overwrite(u.contact, d.contact),
      Overwrite(u.additionalPaths, d.additionalPaths),
      Overwrite(u.variables, d.variables),
      Overwrite(u.extraProperties, d.extraProperties))
  }

  // ---------------------------------------------------------------------------
  // Public records and their STAC projection

  /** A stored record together with its identifier, as the API returns it. */
  datatype DataRequestPublic = DataRequestPublic(id: string, request: DataRequest)

  /** A STAC property value: a plain string, or the ISO 8601 rendering of an
      instant. Rendering is kept symbolic; distinct instants, or one moment
      written with distinct offsets, render differently. */
  datatype PropertyValue = Text(text: string) | IsoFormat(instant: Instant)

  /** A STAC item. */
  datatype StacItem = StacItem(
    itemType: string,
    stacVersion: string,
    geometry: Option<Geometry>,
    stacExtensions: seq<string>,
    id: string,
    bbox: Option<seq<real>>,
    properties: map<string, PropertyValue>,
    links: seq<Link>,
    assets: map<string, string>)

  /** The bounding box could not be computed: the geometry has no usable stored
      box and an empty coordinate array. */
  datatype StacError = EmptyCoordinates

  /** The property keys the projection writes over the extra properties. */
  const DatetimeKeys: set<string> := {"datetime", "start_datetime", "end_datetime"}

  /** The period spans more than one moment. */
  predicate IsRange(t: seq<Instant>)
  {
    exists i, j :: 0 <= i < |t| && 0 <= j < |t| && !SameInstant(t[i], t[j])
  }

  /** A stored box counts only when it is present and non-empty. */
  predicate HasStoredBox(g: Geometry)
  {
    g.bbox.Some? && |g.bbox.value| > 0
  }

  /** The properties of the STAC item: the extra properties as text, with
      "datetime" set to the first instant and, when the period has two distinct
      moments, "start_datetime" and "end_datetime" set to its ends. */
  function StacProperties(extra: map<string, string>, t: seq<Instant>): (props: map<string, PropertyValue>)
    requires TemporalLengthOk(t)
    ensures props.Keys == extra.Keys + {"datetime"} + (if IsRange(t) then {"start_datetime", "end_datetime"} else {})
    ensures props["datetime"] == IsoFormat(t[0])
    ensures IsRange(t) ==> props["start_datetime"] == IsoFormat(t[0]) && props["end_datetime"] == IsoFormat(t[1])
    ensures forall k :: k in extra && k !in DatetimeKeys ==> props[k] == Text(extra[k])
  {
    var text := map k | k in extra :: Text(extra[k]);
    var withDatetime := text["datetime" := IsoFormat(t[0])];
    if |t| == 2 && !SameInstant(t[0], t[1]) then
      withDatetime["start_datetime" := IsoFormat(t[0])]["end_datetime" := IsoFormat(t[1])]
    else
      assert !IsRange(t);
      withDatetime
  }

  /** The STAC item of a public record. The geometry is embedded as stored; the
      box is the geometry's stored box when it has a non-empty one, and is
      computed from its coordinates otherwise. */
  function StacItemOf(p: DataRequestPublic): (r: Result<StacItem, StacError>)
    requires TemporalLengthOk(p.request.temporal)
    ensures r.Err? <==> p.request.geometry.Some? && !HasStoredBox(p.request.geometry.value) &&
                        !Dense(p.request.geometry.value.coordinates)
    ensures r.Ok? ==> r.value.itemType == "Feature" && r.value.stacVersion == "1.1.0"
    ensures r.Ok? ==> r.value.id == p.id && r.value.links == p.request.links
    ensures r.Ok? ==> r.value.geometry == p.request.geometry
    ensures r.Ok? ==> r.value.stacExtensions == [] && r.value.assets == map[]
    ensures r.Ok? ==> (r.value.bbox.None? <==> p.request.geometry.None?)
    ensures r.Ok? && p.request.geometry.Some? && HasStoredBox(p.request.geometry.value) ==>
              r.value.bbox == p.request.geometry.value.bbox
    ensures r.Ok? && p.request.geometry.Some? && !HasStoredBox(p.request.geometry.value) ==>
              IsBBoxOf(r.value.bbox.value, Points(p.request.geometry.value.coordinates).value)
    ensures r.Ok? ==> r.value.properties == StacProperties(p.request.extraProperties, p.request.temporal)
  {
    var d := p.request;
    var properties := StacProperties(d.extraProperties, d.temporal);
    match d.geometry
    case None =>
      Ok(StacItem("Feature", "1.1.0", None, [], p.id, None, properties, d.links, map[]))
    case Some(g) =>
      var box :- if HasStoredBox(g) then Ok(g.bbox.value)
                 else match BBoxFromCoordinates(g.coordinates)
                      case Some(b) => Ok(b)
                      case None => Err(EmptyCoordinates);
      Ok(StacItem("Feature", "1.1.0", Some(g), [], p.id, Some(box), properties, d.links, map[]))
  }
}
