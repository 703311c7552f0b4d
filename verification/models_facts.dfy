/** Properties of data-request validation, updates and the STAC projection. */
module ModelsFacts {
  import opened Wrappers
  import opened BBox
  import opened Geojson
  import opened Models
  import BBoxFacts

  // ---------------------------------------------------------------------------
  // Validation

  /** A period written latest-first is stored earliest-first. */
  lemma DescendingPairIsSwapped(d: DataRequest, a: Instant, b: Instant)
    requires Acceptable(d) && d.temporal == [a, b]
    requires b.utcMicros < a.utcMicros
    ensures ValidateDataRequest(d) == Ok(d.(temporal := [b, a]))
  {
    assert d.temporal[1] == b && d.temporal[0] == a;
  }

  /** A validated record passes validation again unchanged: reading a stored
      record back yields the record that was stored. */
  lemma RevalidationIsIdentity(d: DataRequest)
    requires ValidRecord(d)
    ensures ValidateDataRequest(d) == Ok(d)
  {
  }

  /** Validation is idempotent. */
  lemma ValidationIdempotent(d: DataRequest)
    requires ValidateDataRequest(d).Ok?
    ensures ValidateDataRequest(ValidateDataRequest(d).value) == ValidateDataRequest(d)
  {
    RevalidationIsIdentity(ValidateDataRequest(d).value);
  }

  /** Each field guarded by the non-empty rule is rejected, by name, when it is
      present but empty, whatever the other fields hold. */
  lemma BlankFieldRejected(d: DataRequest, field: string)
    requires field in NonEmptyIfSetFields
    requires field == "user" ==> d.user == ""
    requires field == "title" ==> d.title == ""
    requires field == "description" ==> d.description == Some("")
    requires field == "authors" ==> d.authors == []
    requires field == "path" ==> d.path == ""
    requires field == "contact" ==> d.contact == ""
    ensures ValidateDataRequest(d).Err?
    ensures field in ValidateDataRequest(d).error.fields
  {
    assert FieldRejected(d, field);
  }

  /** A point whose coordinates are a list of positions rather than one
      position is rejected, by name, in a record and in an update. */
  lemma NestedPointRejected(d: DataRequest, u: DataRequestUpdate, x: real, y: real)
    requires d.geometry == Some(Geometry(Point, Array([Position([x, y])]), None))
    requires u.geometry == Set(d.geometry.value)
    ensures ValidateDataRequest(d).Err? && "geometry" in ValidateDataRequest(d).error.fields
    ensures ValidateUpdate(u).Err? && "geometry" in ValidateUpdate(u).error.fields
  {
    assert !WellShaped(d.geometry.value);
    assert FieldRejected(d, "geometry");
    assert UpdateFieldRejected(u, "geometry");
  }

  /** A missing description is accepted. */
  lemma AbsentDescriptionAccepted(d: DataRequest)
    requires ValidRecord(d)
    ensures ValidateDataRequest(d.(description := None)) == Ok(d.(description := None))
  {
    RevalidationIsIdentity(d.(description := None));
  }

  // ---------------------------------------------------------------------------
  // Updates

  /** An update that names no field leaves the record as it is. */
  lemma EmptyUpdateChangesNothing(d: DataRequest, u: DataRequestUpdate)
    requires UpdatedFields(u) == {}
    ensures ApplyUpdate(d, u) == d
  {
    assert forall f :: !Supplied(u, f);
    assert !Supplied(u, "user") && !Supplied(u, "title") && !Supplied(u, "description");
    assert !Supplied(u, "authors") && !Supplied(u, "geometry") && !Supplied(u, "temporal");
    assert !Supplied(u, "links") && !Supplied(u, "path") && !Supplied(u, "contact");
    assert !Supplied(u, "additional_paths") && !Supplied(u, "variables") && !Supplied(u, "extra_properties");
  }

  /** An update that gives only an identifier writes nothing. */
  lemma IdentifierIsNeverWritten(d: DataRequest, id: string)
    ensures var u := DataRequestUpdate(Set(id), Unset, Unset, Unset, Unset, Unset, Unset, Unset, Unset,
                                       Unset, Unset, Unset, Unset);
            UpdatedFields(u) == {} && ApplyUpdate(d, u) == d
  {
    var u := DataRequestUpdate(Set(id), Unset, Unset, Unset, Unset, Unset, Unset, Unset, Unset,
                               Unset, Unset, Unset, Unset);
    assert forall f :: !Supplied(u, f);
    EmptyUpdateChangesNothing(d, u);
  }

  /** Writing a validated update into a validated record gives a validated
      record: the record's invariants hold after every update. */
  lemma UpdatePreservesValidity(d: DataRequest, u: DataRequestUpdate)
    requires ValidRecord(d) && ValidUpdate(u)
    ensures ValidRecord(ApplyUpdate(d, u))
  {
    assert !UpdateFieldRejected(u, "user") && !UpdateFieldRejected(u, "title");
    assert !UpdateFieldRejected(u, "description") && !UpdateFieldRejected(u, "authors");
    assert !UpdateFieldRejected(u, "temporal") && !UpdateFieldRejected(u, "path");
    assert !UpdateFieldRejected(u, "contact");
  }

  /** Applying the same update twice has the effect of applying it once. */
  lemma UpdateIdempotent(d: DataRequest, u: DataRequestUpdate)
    ensures ApplyUpdate(ApplyUpdate(d, u), u) == ApplyUpdate(d, u)
  {
  }

  /** The update that gives every field of r its value in r, leaving optional
      fields that r lacks as null. */
  function FullUpdate(r: DataRequest): (u: DataRequestUpdate)
    ensures UpdatedFields(u) == RecordFields
  {
    var u := DataRequestUpdate(
      Unset,
      Set(r.user),
      Set(r.title),
      if r.description.Some? then Set(r.description.value) else Null,
      Set(r.authors),
      if r.geometry.Some? then Set(r.geometry.value) else Null,
      Set(r.temporal),
      Set(r.links),
      Set(r.path),
      Set(r.contact),
      Set(r.additionalPaths),
      Set(r.variables),
      Set(r.extraProperties));
    assert forall f :: f in RecordFields ==> Supplied(u, f);
    u
  }

  /** Updating every field replaces the whole record, identifier aside. */
  lemma FullUpdateReplacesRecord(d: DataRequest, r: DataRequest)
    ensures ApplyUpdate(d, FullUpdate(r)) == r
  {
  }

  /** The full update of a validated record passes update validation unchanged. */
  lemma FullUpdateOfValidRecordValidates(r: DataRequest)
    requires ValidRecord(r)
    ensures ValidateUpdate(FullUpdate(r)) == Ok(FullUpdate(r))
  {
    var u := FullUpdate(r);
    assert forall f :: !UpdateFieldRejected(u, f);
  }

  /** Giving null for a field the record requires is rejected, by name. */
  lemma NullTitleRejected(u: DataRequestUpdate)
    requires u.title == Null
    ensures ValidateUpdate(u).Err? && "title" in ValidateUpdate(u).error.fields
  {
    assert UpdateFieldRejected(u, "title");
  }

  /** Giving null for the optional description is accepted and clears it. */
  lemma NullDescriptionClears(d: DataRequest, u: DataRequestUpdate)
    requires ValidUpdate(u) && u.description == Null
    ensures ApplyUpdate(d, u).description == None
  {
  }

  // ---------------------------------------------------------------------------
  // The STAC projection

  /** A period of at most two instants spans more than one moment exactly when
      it has two instants that are different moments. */
  lemma IsRangeOfShortPeriod(t: seq<Instant>)
    requires TemporalLengthOk(t)
    ensures IsRange(t) <==> |t| == 2 && !SameInstant(t[0], t[1])
  {
    if |t| == 2 && !SameInstant(t[0], t[1]) {
      assert !SameInstant(t[0], t[1]);
    }
  }

  /** A single instant gives "datetime" and no range. */
  lemma SingleInstantHasNoRange(extra: map<string, string>, a: Instant)
    requires "start_datetime" !in extra && "end_datetime" !in extra
    ensures var props := StacProperties(extra, [a]);
            props["datetime"] == IsoFormat(a) && "start_datetime" !in props && "end_datetime" !in props
  {
    IsRangeOfShortPeriod([a]);
  }

  /** Two instants at the same moment give no range, even when written with
      different offsets. */
  lemma SameMomentHasNoRange(extra: map<string, string>, a: Instant, b: Instant)
    requires SameInstant(a, b)
    requires "start_datetime" !in extra && "end_datetime" !in extra
    ensures var props := StacProperties(extra, [a, b]);
            props["datetime"] == IsoFormat(a) && "start_datetime" !in props && "end_datetime" !in props
  {
    IsRangeOfShortPeriod([a, b]);
  }

  /** Two distinct moments give a range from the first to the second. */
  lemma DistinctMomentsGiveRange(extra: map<string, string>, a: Instant, b: Instant)
    requires !SameInstant(a, b)
    ensures var props := StacProperties(extra, [a, b]);
            props["datetime"] == IsoFormat(a) &&
            props["start_datetime"] == IsoFormat(a) && props["end_datetime"] == IsoFormat(b)
  {
    IsRangeOfShortPeriod([a, b]);
  }

  /** Every extra property key is a key of the item's properties. */
  lemma ExtraKeysKept(p: DataRequestPublic)
    requires TemporalLengthOk(p.request.temporal)
    requires StacItemOf(p).Ok?
    ensures p.request.extraProperties.Keys <= StacItemOf(p).value.properties.Keys
  {
  }

  /** For a validated record, the range the item states runs forward in time. */
  lemma RangeRunsForward(p: DataRequestPublic)
    requires ValidRecord(p.request)
    requires StacItemOf(p).Ok?
    ensures var props := StacItemOf(p).value.properties;
            IsRange(p.request.temporal) ==>
              props["start_datetime"].IsoFormat? && props["end_datetime"].IsoFormat? &&
              props["start_datetime"].instant.utcMicros < props["end_datetime"].instant.utcMicros
  {
    var t := p.request.temporal;
    IsRangeOfShortPeriod(t);
  }

  /** A record without geometry always projects, with neither geometry nor box. */
  lemma NoGeometryNoBox(p: DataRequestPublic)
    requires TemporalLengthOk(p.request.temporal)
    requires p.request.geometry.None?
    ensures StacItemOf(p).Ok?
    ensures StacItemOf(p).value.geometry.None? && StacItemOf(p).value.bbox.None?
  {
  }

  /** A point geometry without a stored box is boxed by its own position. */
  lemma PointGeometryBox(p: DataRequestPublic, x: real, y: real)
    requires TemporalLengthOk(p.request.temporal)
    requires p.request.geometry == Some(Geometry(Point, Position([x, y]), None))
    ensures StacItemOf(p).Ok?
    ensures StacItemOf(p).value.bbox == Some([x, x, y, y])
  {
    BBoxFacts.TwoDimensionalPosition(x, y);
  }
}
