# marble-api data requests, modelled in Dafny

A model of the core of marble-api, the HTTP API that stores data-publication
requests. The model covers three parts of the Python source:

- **GeoJSON helpers** (`marble_api/utils/geojson.py`).
  - The bounding box of a nested coordinate array.
  - Extracting the geometries of a Geometry, Feature, FeatureCollection or
    GeometryCollection.
  - Checking that their type tags can be collapsed into one STAC geometry.
  - Collapsing them into one multi-geometry.
- **The data-request record** (`marble_api/versions/v1/data_request/models.py`).
  - The `Temporal` period: one or two instants, sorted on validation.
  - The rule that listed fields must be non-empty when given (`min_length_if_set`).
  - The partial update model.
  - The STAC item projection `DataRequestPublic.stac_item`.
- **The data-request routes** (`marble_api/versions/v1/data_request/routes.py`).
  - `_data_request_id`: a malformed identifier is answered with 404.
  - `get_data_requests`: cursor pagination with `after`/`before`, `limit + 1`
    fetching and next/prev links.
  - `patch_data_request`: validation (422), the ownership rule (403), the
    identifier (404) and the partial update.

Modules, one per source unit:

| module | file | models |
|---|---|---|
| `Wrappers` | `wrappers.dfy` | `Option`, `Result`, `Outcome` |
| `BBox`, `BBoxFacts` | `bbox.dfy` | `_coordinates_to_points`, `bbox_from_coordinates` |
| `Geojson`, `GeojsonFacts` | `geojson.dfy`, `geojson_facts.dfy` | extraction, validation, collapse |
| `ObjectIds` | `object_ids.dfy` | the 24-hex-digit ObjectId strings that identifiers and cursors are |
| `Models`, `ModelsFacts` | `models.dfy`, `models_facts.dfy` | record validation, updates, STAC item |
| `Routes`, `PagingFacts`, `PatchFacts` | `routes.dfy`, `paging_facts.dfy`, `patch_facts.dfy` | the listing and update routes |

Modelling choices:

- **Coordinates and geometries.**
  - Coordinates are exact reals in an untyped tree (`Position` or `Array`).
  - A geometry's shape is the array depth its type prescribes, over positions
    of two or three numbers (`WellShaped`).
  - The source reads `coordinates[0]`, so an empty array makes the traversal
    fail. The model returns `None` in that case.
- **GeoJSON extraction, as written and corrected.**
  - `Geojson.ExtractAsWritten`, `Geojson.ValidateCollapsibleAsWritten` and
    `Geojson.CollapseAsWritten` model the source as written, including the two
    defects listed under "## Findings".
  - `Geojson.ExtractGeometries`, `Geojson.ValidateCollapsible` and
    `Geojson.CollapseGeometries` are the corrected definitions: nested
    collections are flattened and features without a geometry contribute
    nothing. The rest of the model uses these.
  - `GeojsonFacts.CollapseAgreesOnFlat` and `GeojsonFacts.ValidateAgreesOnFlat`
    show that the two agree on GeoJSON without null feature geometries or
    nested collections.
- **Instants.**
  - An instant is a UTC microsecond count plus the offset it was written with.
    Comparison and equality use the UTC value, as for aware datetimes.
  - `isoformat()` is a constructor (`IsoFormat(instant)`), so it is injective.
- **The store and the routes.**
  - The store is a sequence of `(id, record)` pairs.
  - A store the API wrote has strictly ascending identifiers below 16^24, and
    every record in it is validated (`ValidStore`).
  - Mongo queries become filters over the sequence. A write becomes a new
    sequence.
  - The router that served the request becomes a `Scope` parameter: a user's
    prefix or the admin prefix.
- **Pagination properties.**
  - The completeness and back-and-forth lemmas are stated for `ListPage` over
    the scoped listing.
  - `Routes.FirstPage` and `Routes.FollowLink` show that the route gives
    exactly those pages: for the first request, and for a request that follows
    a link.
  - `PagingFacts.LinkIdsInRange` shows that every link of a valid store carries
    an identifier that renders and parses back.

## Model

| member | source | states |
|---|---|---|
| ObjectIds.ParseObjectId | marble_api/utils/models.py:48-58 | an accepted identifier string has 24 characters and denotes a value below 16^24 |
| ObjectIds.ParseRenderHex | marble_api/utils/models.py:48-58 | hexadecimal rendering at a fixed width parses back to the same number |
| ObjectIds.ParseRenderObjectId | marble_api/utils/models.py:48-58 | an identifier rendered as a cursor or path parses back to the identifier |
| ObjectIds.RenderObjectId | marble_api/versions/v1/data_request/routes.py:180-189 | a cursor or path identifier is always 24 characters long |
| ObjectIds.RenderObjectIdInjective | marble_api/utils/models.py:48-58 | distinct identifiers render to distinct strings |
| BBox.Points | marble_api/utils/geojson.py:33-38 | the leaf positions exist exactly when no array or position in the tree is empty; there is at least one and none is empty |
| BBox.Dim | marble_api/utils/geojson.py:44 | the number of axes zip_longest produces: no position is longer, and some position is that long |
| BBox.BBoxOfPoints | marble_api/utils/geojson.py:43-47 | the result has two entries per axis; on each axis every zero-padded value lies between the entries, and both entries are values some position takes |
| BBox.BBoxFromCoordinates | marble_api/utils/geojson.py:41-47 | a box exists exactly when the traversal succeeds, and it is the bounding box of the leaf positions |
| BBoxFacts.BoundsOrdered | marble_api/utils/geojson.py:45-47 | on every axis the lower bound is at most the upper bound, and the box has twice as many entries as the longest position has axes |
| BBoxFacts.BBoxUnique | marble_api/utils/geojson.py:44-47 | two boxes meeting the bounding-box description for the same positions, listed in any order, are equal |
| BBoxFacts.SameLeavesSameBBox | marble_api/utils/geojson.py:33-47 | coordinate trees with the same leaf positions, however nested and ordered, have the same box |
| BBoxFacts.PointsOfAppend | marble_api/utils/geojson.py:34-36 | the leaves of concatenated siblings are the leaves of each part, in order |
| BBoxFacts.WrappingKeepsPoints | marble_api/utils/geojson.py:34-36 | one more level of array nesting leaves the leaves unchanged |
| BBoxFacts.RegroupingKeepsPoints | marble_api/utils/geojson.py:34-36 | splitting siblings into two nested groups leaves the leaves unchanged |
| BBoxFacts.TwoDimensionalPosition | marble_api/utils/geojson.py:41-47 | the position [x, y] has box [x, x, y, y] |
| BBoxFacts.ThreeDimensionalPosition | marble_api/utils/geojson.py:41-47 | the position [x, y, z] has box [x, x, y, y, z, z] |
| BBoxFacts.MixedDimensionLeaves | marble_api/utils/geojson.py:33-38 | the leaves of [[1, 2], [-1, -3, 33]] are its two positions in order |
| BBoxFacts.MixedDimensionBox | marble_api/utils/geojson.py:44-46 | [-1, 1, -3, 2, 0, 33] is the box of [1, 2] and [-1, -3, 33]: the short position counts as 0 on the third axis |
| BBoxFacts.MixedDimensionLine | marble_api/utils/geojson.py:41-47 | bbox_from_coordinates([[1, 2], [-1, -3, 33]]) is [-1, 1, -3, 2, 0, 33] |
| Geojson.ExtractAsWritten | marble_api/utils/geojson.py:61-71 | as written, extraction fails, with the null-geometry error, exactly when the value is a Feature without geometry or a FeatureCollection with such a feature |
| Geojson.FlattenValue | marble_api/utils/geojson.py:65-71 | the leaf geometries of a parsed geometry or collection, at any depth, are all well shaped |
| Geojson.FlattenFeatures | marble_api/utils/geojson.py:63-64 | the leaf geometries of parsed features are all well shaped |
| Geojson.ExtractGeometries | marble_api/utils/geojson.py:61-71 | corrected extraction: every geometry extracted from parsed GeoJSON is well shaped |
| Geojson.ValidateGeometries | marble_api/utils/geojson.py:50-58 | validation fails only with the GeoJSON type named in the error, and never for fewer than two geometries |
| Geojson.ValidateCollapsibleAsWritten | marble_api/utils/geojson.py:74-76 | as written, a null feature geometry fails with the null-geometry error; otherwise a failure names the GeoJSON type, and none or one extracted value passes |
| Geojson.ValidateCollapsible | marble_api/utils/geojson.py:74-76 | corrected validation fails only with the GeoJSON type named, and none or one extracted geometry passes |
| Geojson.MergeGeometries | marble_api/utils/geojson.py:94-110 | merging fails only for two or more geometries, on a malformed construction; nothing is returned exactly for no geometries; two or more give the multi-variant of the last geometry's family over the spliced coordinates, well shaped when its inputs are |
| Geojson.MergeValues | marble_api/utils/geojson.py:94-110 | as written, merging fails for missing coordinates exactly when there are two or more values and one is a collection; nothing is returned exactly for no values; two or more give a geometry |
| Geojson.CollapseAsWritten | marble_api/utils/geojson.py:79-110 | as written, a null feature geometry fails with the null-geometry error; with `check` set a validation failure is returned as is; a type error arises only with `check` set |
| Geojson.CollapseGeometries | marble_api/utils/geojson.py:79-110 | corrected collapse fails only with the GeoJSON type named when `check` is set, or on a malformed construction; it returns nothing exactly when nothing was extracted |
| GeojsonFacts.KindNameInjective | marble_api/utils/geojson.py:51 | different geometry types have different type tags |
| GeojsonFacts.NameInFamily | marble_api/utils/geojson.py:54-56 | a value's tag is one of a family's two tags exactly when it is a geometry of that family |
| GeojsonFacts.SameTypeValidates | marble_api/utils/geojson.py:52 | geometries that all have one type give a tag set that passes |
| GeojsonFacts.FamilyValidates | marble_api/utils/geojson.py:52-57 | geometries all from one family give a tag set that passes |
| GeojsonFacts.ValidatedIsSameTypeOrFamily | marble_api/utils/geojson.py:52-57 | a tag set that passes comes from values that all have one type or all come from one family |
| GeojsonFacts.ValidationCharacterization | marble_api/utils/geojson.py:50-58 | validation passes exactly when the values all have one type or all come from one family, the empty list included |
| GeojsonFacts.MixedFamiliesRejected | marble_api/utils/geojson.py:52-58 | two geometries from different families make validation fail with the GeoJSON type in the error |
| GeojsonFacts.SpliceDepth | marble_api/utils/geojson.py:99-103 | every entry a family's geometries contribute to the merged list is one single shape of that family |
| GeojsonFacts.MergeOneFamily | marble_api/utils/geojson.py:94-110 | merging one family's geometries succeeds; two or more give the family's multi-type over the spliced coordinates, with the right shape |
| GeojsonFacts.LastGeometryNamesMerge | marble_api/utils/geojson.py:104-110 | the merged type follows the last geometry: an empty MultiPoint then a LineString merge into a MultiLineString, which the first geometry's family would not allow |
| GeojsonFacts.MultiShaped | marble_api/utils/geojson.py:104-110 | a list of a family's single shapes is well-shaped coordinates of its multi-type |
| GeojsonFacts.SplicePreservesPoints | marble_api/utils/geojson.py:98-103 | the merged coordinates hold exactly the positions of the merged geometries, in order |
| GeojsonFacts.CollapseNothing | marble_api/utils/geojson.py:94-95 | no extracted geometries collapse to nothing, whether or not `check` is set |
| GeojsonFacts.CollapseOne | marble_api/utils/geojson.py:96-97 | a single extracted geometry is returned unchanged, whether or not `check` is set |
| GeojsonFacts.CollapseIdempotent | marble_api/utils/geojson.py:96-97 | collapsing a bare geometry returns it, so collapsing a collapsed geometry changes nothing |
| GeojsonFacts.CollapseRejectsInvalid | marble_api/utils/geojson.py:92-93 | with `check` set, GeoJSON that fails validation is refused with its type named |
| GeojsonFacts.CollapseValid | marble_api/utils/geojson.py:91-110 | valid parsed GeoJSON collapses; the result is absent exactly when nothing was extracted, is well shaped, and from two geometries on all extracted geometries share the first one's family and the result is that family's multi-geometry over the spliced coordinates |
| GeojsonFacts.CollapseKeepsPositions | marble_api/utils/geojson.py:98-110 | the collapsed geometry holds exactly the positions of the extracted geometries, in order |
| GeojsonFacts.FlattenFeaturesAppend | marble_api/utils/geojson.py:63-64 | the geometries of concatenated feature lists are the geometries of each list, in order |
| GeojsonFacts.FeatureCollectionConcatenates | marble_api/utils/geojson.py:63-64 | a FeatureCollection's geometries are its features' geometries, concatenated in feature order |
| GeojsonFacts.ExtractFeaturesAsWrittenAppend | marble_api/utils/geojson.py:63-64 | as written, the extraction of concatenated feature lists is the concatenation, or the first error |
| GeojsonFacts.FeatureCollectionConcatenatesAsWritten | marble_api/utils/geojson.py:63-64 | as written, a FeatureCollection's extraction concatenates its features' extractions in order, or fails with the first error |
| GeojsonFacts.FlatValueAgrees | marble_api/utils/geojson.py:65-71 | on a value without nested collections, the extraction as written and the flattening one agree |
| GeojsonFacts.FlatMembersAgree | marble_api/utils/geojson.py:65-66 | a collection whose members are all geometries is returned as its members by both extractions |
| GeojsonFacts.FlatFeaturesAgree | marble_api/utils/geojson.py:63-64 | on features with geometries and no nested collections, both extractions agree |
| GeojsonFacts.AsWrittenAgreesOnFlatInput | marble_api/utils/geojson.py:61-71 | on GeoJSON without null feature geometries or nested collections, both extractions give the same geometries |
| GeojsonFacts.ValidateAgreesOnFlat | marble_api/utils/geojson.py:74-76 | on GeoJSON without null feature geometries or nested collections, validation as written and corrected give the same outcome |
| GeojsonFacts.MergeValuesOfGeometries | marble_api/utils/geojson.py:98-110 | merging plain geometries as values gives the merge of the geometries themselves |
| GeojsonFacts.CollapseAgreesOnFlat | marble_api/utils/geojson.py:79-110 | on GeoJSON without null feature geometries or nested collections, the collapse as written and the corrected one give the same result |
| GeojsonFacts.CollapseAsWrittenFew | marble_api/utils/geojson.py:91-97 | as written, none or one extracted value collapses to nothing or to that value |
| GeojsonFacts.NullFeatureFailsAsWritten | marble_api/utils/geojson.py:63-70 | as written, a Feature with a null geometry fails in extraction, validation and collapse |
| GeojsonFacts.NullFeatureInCollectionFailsAsWritten | marble_api/utils/geojson.py:63-64 | as written, one null-geometry feature makes a whole FeatureCollection fail |
| GeojsonFacts.NullFeatureContributesNothing | marble_api/utils/geojson.py:69-70 | corrected: a null-geometry feature adds no geometries to a FeatureCollection |
| GeojsonFacts.NullFeatureAlone | marble_api/utils/geojson.py:69-70 | corrected: a Feature with a null geometry extracts to nothing and passes validation |
| GeojsonFacts.NestedCollectionPassesAsWritten | marble_api/utils/geojson.py:65-66 | as written, a GeometryCollection inside a GeometryCollection passes validation even when it mixes families, and collapses to the inner collection |
| GeojsonFacts.NestedCollectionsFailAsWritten | marble_api/utils/geojson.py:65-103 | as written, two nested collections pass validation and then fail to merge, having no coordinates |
| GeojsonFacts.NestedCollectionRejected | marble_api/utils/geojson.py:61-71 | corrected: nested collections are flattened, so mixing families inside them is refused |
| Models.SortTemporal | marble_api/versions/v1/data_request/models.py:25 | the sorted period has the same instants and length, is ascending, and an ascending period is left as it is |
| Models.RejectedFields | marble_api/versions/v1/data_request/models.py:58-63 | the rejected fields are exactly those given empty, a geometry of the wrong shape and a period of the wrong length, and none are rejected exactly when the record is acceptable |
| Models.ValidateDataRequest | marble_api/versions/v1/data_request/models.py:25-63 | validation succeeds exactly for acceptable records; the result is a valid record that differs from the input only in its period, whose instants it keeps; an error names exactly the rejected fields |
| Models.UpdatedFields | marble_api/versions/v1/data_request/routes.py:58 | the fields an update writes are exactly those it gives, never the identifier |
| Models.RejectedUpdateFields | marble_api/versions/v1/data_request/models.py:58-75 | the rejected update fields are exactly those whose given value breaks the record's constraints |
| Models.ValidateUpdate | marble_api/versions/v1/data_request/models.py:66-75 | an update validates exactly when no field is rejected; the result is a valid update that differs only in its sorted period; an error names exactly the rejected fields |
| Models.ApplyUpdate | marble_api/versions/v1/data_request/routes.py:66-69 | the fields the update does not give keep their stored values; every given value is the record's value afterwards |
| Models.StacProperties | marble_api/versions/v1/data_request/models.py:98-110 | the properties hold the extra properties as text, "datetime" as the first instant, and the start and end exactly when the period spans two moments |
| Models.StacItemOf | marble_api/versions/v1/data_request/models.py:88-114 | the item is a Feature of STAC 1.1.0 with the record's id, links and geometry; its box is absent exactly when there is no geometry, and is the stored box or the computed one; it fails only when the box must be computed from an empty array |
| ModelsFacts.DescendingPairIsSwapped | marble_api/versions/v1/data_request/models.py:25 | a period written latest-first is stored earliest-first |
| ModelsFacts.RevalidationIsIdentity | marble_api/versions/v1/data_request/models.py:25-63 | a valid record passes validation unchanged |
| ModelsFacts.ValidationIdempotent | marble_api/versions/v1/data_request/models.py:25-63 | validating a validated record gives it back |
| ModelsFacts.BlankFieldRejected | marble_api/versions/v1/data_request/models.py:58-63 | each of user, title, description, authors, path and contact is rejected by name when given empty |
| ModelsFacts.NestedPointRejected | marble_api/versions/v1/data_request/models.py:48 | a point whose coordinates are a list of positions is rejected by name, in a record and in an update |
| ModelsFacts.AbsentDescriptionAccepted | marble_api/versions/v1/data_request/models.py:46-63 | a missing description is accepted |
| ModelsFacts.EmptyUpdateChangesNothing | marble_api/versions/v1/data_request/routes.py:58-66 | an update that gives no field leaves the record as it is |
| ModelsFacts.IdentifierIsNeverWritten | marble_api/versions/v1/data_request/models.py:43 | an update giving only an identifier writes nothing |
| ModelsFacts.UpdatePreservesValidity | marble_api/versions/v1/data_request/models.py:58-75 | a validated update written into a valid record leaves a valid record |
| ModelsFacts.UpdateIdempotent | marble_api/versions/v1/data_request/routes.py:66-69 | applying an update twice has the effect of applying it once |
| ModelsFacts.FullUpdate | marble_api/versions/v1/data_request/models.py:66-75 | the update that gives every field of a record writes every record field |
| ModelsFacts.FullUpdateReplacesRecord | marble_api/versions/v1/data_request/routes.py:66-69 | an update giving every field replaces the whole record |
| ModelsFacts.FullUpdateOfValidRecordValidates | marble_api/versions/v1/data_request/models.py:66-75 | the full update of a valid record validates unchanged |
| ModelsFacts.NullTitleRejected | marble_api/utils/models.py:9-45 | giving null for a required field such as the title is rejected by name |
| ModelsFacts.NullDescriptionClears | marble_api/versions/v1/data_request/models.py:46 | giving null for the optional description clears it |
| ModelsFacts.IsRangeOfShortPeriod | marble_api/versions/v1/data_request/models.py:107 | a period of at most two instants spans more than one moment exactly when it has two instants at different moments |
| ModelsFacts.SingleInstantHasNoRange | marble_api/versions/v1/data_request/models.py:105-110 | one instant gives "datetime" and no start or end |
| ModelsFacts.SameMomentHasNoRange | marble_api/versions/v1/data_request/models.py:107 | two instants at the same moment give no range, even with different offsets |
| ModelsFacts.DistinctMomentsGiveRange | marble_api/versions/v1/data_request/models.py:105-110 | two different moments give "datetime" and the range from the first to the second |
| ModelsFacts.ExtraKeysKept | marble_api/versions/v1/data_request/models.py:98 | every extra property key is a key of the item's properties |
| ModelsFacts.RangeRunsForward | marble_api/versions/v1/data_request/models.py:107-110 | for a valid record, the stated range runs forward in time |
| ModelsFacts.NoGeometryNoBox | marble_api/versions/v1/data_request/models.py:94-113 | a record without geometry projects, with neither geometry nor box |
| ModelsFacts.PointGeometryBox | marble_api/versions/v1/data_request/models.py:112-113 | a point without a stored box is boxed by its own position |
| Routes.DataRequestId | marble_api/versions/v1/data_request/routes.py:33-34 | a malformed identifier is 404, and a well-formed one is 24 characters below 16^24 |
| Routes.AscendingPairs | marble_api/versions/v1/data_request/routes.py:138 | in an ascending listing every earlier identifier is below every later one |
| Routes.PairsAscending | marble_api/versions/v1/data_request/routes.py:138 | pairwise ordered identifiers make an ascending listing |
| Routes.FilterMembers | marble_api/versions/v1/data_request/routes.py:132-133 | a query returns exactly the stored records it selects |
| Routes.FilterAscending | marble_api/versions/v1/data_request/routes.py:138 | a query over an ascending listing is ascending |
| Routes.Reverse | marble_api/versions/v1/data_request/routes.py:150-151 | reversing keeps the length and puts each record at the mirrored position |
| Routes.Scoped | marble_api/versions/v1/data_request/routes.py:131-133 | the listing holds exactly the stored records in the caller's scope |
| Routes.Above | marble_api/versions/v1/data_request/routes.py:134-139 | the query after a cursor holds exactly the records with a greater identifier |
| Routes.Below | marble_api/versions/v1/data_request/routes.py:140-146 | the query before a cursor holds exactly the records with a smaller identifier |
| Routes.Take | marble_api/versions/v1/data_request/routes.py:136-149 | a query limited to n yields a prefix of at most n records, and all records when fewer than n are returned |
| Routes.Last | marble_api/versions/v1/data_request/routes.py:144-151 | the reversed descending query yields a suffix of at most n records, and all records when fewer than n are returned |
| Routes.LastIsReversedFetch | marble_api/versions/v1/data_request/routes.py:141-151 | a descending query limited to n and reversed again gives the last n records in ascending order |
| Routes.PageLinks | marble_api/versions/v1/data_request/routes.py:172-190 | the links are a next link with the after cursor and a prev link with the before cursor, each present exactly when its cursor is |
| Routes.Paginate | marble_api/versions/v1/data_request/routes.py:155-170 | at most limit records from the fetched ones; an after page links back, a before page links forward, a page without cursor has no prev link, an empty page has no links, and the cursors are the page's end identifiers |
| Routes.ParseCursor | marble_api/versions/v1/data_request/routes.py:134-148 | a non-empty after wins over before; a malformed chosen cursor is 404 |
| Routes.Fetch | marble_api/versions/v1/data_request/routes.py:134-149 | the store query returns at most limit + 1 records |
| Routes.FetchBounds | marble_api/versions/v1/data_request/routes.py:134-146 | fetched records are stored records on the cursor's side of it |
| Routes.ListPage | marble_api/versions/v1/data_request/routes.py:149-170 | a page never has more than limit records |
| Routes.PageBounds | marble_api/versions/v1/data_request/routes.py:134-170 | a page's records are listed records on the cursor's side of it |
| Routes.GetDataRequests | marble_api/versions/v1/data_request/routes.py:114-170 | the request fails exactly for a limit outside 1..100 (422) or a malformed chosen cursor (404); a page never holds more than limit records |
| Routes.ListingRecords | marble_api/versions/v1/data_request/routes.py:132-148 | listed records are stored, in the caller's scope, and beyond the cursor given |
| Routes.ListingLinks | marble_api/versions/v1/data_request/routes.py:155-170 | no prev link without a cursor; after pages link back and before pages link forward; empty pages have no links; the links carry the page's end identifiers |
| Routes.FollowLink | marble_api/versions/v1/data_request/routes.py:134-190 | a request carrying a rendered cursor lists the page after or before that identifier |
| Routes.FirstPage | marble_api/versions/v1/data_request/routes.py:147-148 | a request without cursor lists from the start of the caller's listing |
| Routes.Find | marble_api/versions/v1/data_request/routes.py:65-73 | the first stored record the selector matches, or none when none matches |
| Routes.PatchPrelude | marble_api/versions/v1/data_request/routes.py:58-65 | an invalid update is 422, then handing the record to another user is 403, then a malformed identifier is 404 |
| Routes.PatchSelected | marble_api/versions/v1/data_request/routes.py:66-76 | no match is 404; otherwise only the matched record changes, to the updated record, and it is returned |
| Routes.PatchDataRequestAsWritten | marble_api/versions/v1/data_request/routes.py:52-76 | the route as written: 422, 403, and a change only to the record with the given identifier, whoever owns it |
| Routes.PatchDataRequest | marble_api/versions/v1/data_request/routes.py:52-87 | the route with the owner selector: 422, 403, 404 exactly when no record in scope has the identifier, and only that record changes |
| PagingFacts.AboveIsSuffix | marble_api/versions/v1/data_request/routes.py:137-138 | the records after a cursor are a suffix of the ascending listing |
| PagingFacts.BelowIsPrefix | marble_api/versions/v1/data_request/routes.py:143-144 | the records before a cursor are a prefix of the ascending listing |
| PagingFacts.AboveMember | marble_api/versions/v1/data_request/routes.py:137-138 | the records after a listed identifier are those following it |
| PagingFacts.BelowMember | marble_api/versions/v1/data_request/routes.py:143-144 | the records before a listed identifier are those preceding it |
| PagingFacts.ScopedAscending | marble_api/versions/v1/data_request/routes.py:132-133 | a caller's listing of an ascending store is ascending |
| PagingFacts.PaginateForward | marble_api/versions/v1/data_request/routes.py:155-170 | paginating the first limit + 1 records gives the forward window of the listing |
| PagingFacts.PaginateBackward | marble_api/versions/v1/data_request/routes.py:150-167 | paginating the last limit + 1 records gives the backward window of the listing |
| PagingFacts.FirstPageIsPrefix | marble_api/versions/v1/data_request/routes.py:148-170 | the first page is the first limit records, with a next link exactly when more follow |
| PagingFacts.AfterPageIsWindow | marble_api/versions/v1/data_request/routes.py:134-162 | an after page is the forward window of the records after the cursor |
| PagingFacts.BeforePageIsWindow | marble_api/versions/v1/data_request/routes.py:140-167 | a before page is the backward window of the records before the cursor |
| PagingFacts.SliceAscending | marble_api/versions/v1/data_request/routes.py:138 | a slice of an ascending listing is ascending |
| PagingFacts.PageAscending | marble_api/versions/v1/data_request/routes.py:136-151 | every page, before pages included, is in ascending identifier order |
| PagingFacts.PageAfterMember | marble_api/versions/v1/data_request/routes.py:134-162 | the page after a listed identifier is the window of the records that follow it |
| PagingFacts.PageBeforeMember | marble_api/versions/v1/data_request/routes.py:140-167 | the page before a listed identifier is the window of the records that precede it |
| PagingFacts.LinkIdsInRange | marble_api/versions/v1/data_request/routes.py:161-167 | in a valid store, the identifiers links carry are valid identifiers |
| PagingFacts.NextPageAt | marble_api/versions/v1/data_request/routes.py:155-170 | a page with a next link is a full run of limit consecutive records, and its next link is the last of them |
| PagingFacts.NextLinkAdvances | marble_api/versions/v1/data_request/routes.py:157-170 | following a next link leaves strictly fewer records ahead |
| PagingFacts.WalkAfterMember | marble_api/versions/v1/data_request/routes.py:134-170 | following next links from a listed identifier visits every later record once, in order |
| PagingFacts.WalkListsEverything | marble_api/versions/v1/data_request/routes.py:134-170 | following next links from the first page visits every listed record exactly once, in ascending order |
| PagingFacts.PrevPageAt | marble_api/versions/v1/data_request/routes.py:163-167 | a before page with a prev link is a full run of limit records with records before it, and its next link is the last of them |
| PagingFacts.FullBackwardWindow | marble_api/versions/v1/data_request/routes.py:163-167 | a backward window with a prev link is the last limit records of the window, linking forward to its last record and back to its first |
| PagingFacts.AdjacentPages | marble_api/versions/v1/data_request/routes.py:134-167 | the pages on either side of a boundary between two listed records are the windows on either side |
| PagingFacts.BackFromAfterPage | marble_api/versions/v1/data_request/routes.py:158-167 | the window after a full run links back to the run's first record, and the window before it holds the run, links forward to its last record and links back only when records precede it |
| PagingFacts.ForwardFromBeforePage | marble_api/versions/v1/data_request/routes.py:158-167 | the window before position k links forward to the record at k - 1, and the window from k holds the limit records from k with a prev link to the record at k |
| PagingFacts.FirstWindowBack | marble_api/versions/v1/data_request/routes.py:163-170 | the window before the record after the first limit records is the first page |
| PagingFacts.BackAgain | marble_api/versions/v1/data_request/routes.py:158-167 | from a full page, the prev link of the next page leads back to the same records with the same next link |
| PagingFacts.PrevOfNextIsSamePage | marble_api/versions/v1/data_request/routes.py:155-170 | for a page with a next link, the next page's prev link leads back to the same records and next link, and to the identical page unless the page came from an `after` cursor below every listed identifier |
| PagingFacts.SecondPageBack | marble_api/versions/v1/data_request/routes.py:163-170 | going back from the second page gives the first page exactly |
| PagingFacts.NextOfPrevIsSamePage | marble_api/versions/v1/data_request/routes.py:155-170 | for a before page with a prev link, the previous page's next link leads forward to the same records and prev link, and to the identical page whenever a listed record follows it |
| PatchFacts.SameIdsAscending | marble_api/versions/v1/data_request/routes.py:66-69 | a store with the same identifiers in the same places stays in ascending order |
| PatchFacts.PatchSelectedKeepsStoreValid | marble_api/versions/v1/data_request/routes.py:66-74 | writing a validated update to the selected record keeps the store valid |
| PatchFacts.PatchKeepsStoreValid | marble_api/versions/v1/data_request/routes.py:52-76 | every successful update leaves the store valid: identifiers in place and records validated |
| PatchFacts.ValidationKeepsUpdatedFields | marble_api/versions/v1/data_request/routes.py:58 | validating an update does not change which fields it writes |
| PatchFacts.EmptyPatchChangesNothing | marble_api/versions/v1/data_request/routes.py:72-74 | an update giving no field leaves the store unchanged and returns the stored record in scope with that identifier |
| PatchFacts.PatchWritesOnlySuppliedFields | marble_api/versions/v1/data_request/routes.py:58-69 | after an update each record keeps its identifier and every field the update does not give; a changed record carries every given value |
| PatchFacts.HandingOverIsForbidden | marble_api/versions/v1/data_request/routes.py:59-62 | in a user's scope, giving the record another non-empty user is 403 |
| PatchFacts.MalformedIdIsNotFound | marble_api/versions/v1/data_request/routes.py:33-65 | an identifier that is not 24 characters long is 404 once the update is acceptable |
| PatchFacts.FindAfterReplace | marble_api/versions/v1/data_request/routes.py:65-69 | replacing the matched record with one the selector still matches keeps the match |
| PatchFacts.PatchSelectedIdempotent | marble_api/versions/v1/data_request/routes.py:66-74 | writing the same update a second time returns the same store and record |
| PatchFacts.PatchIdempotent | marble_api/versions/v1/data_request/routes.py:52-76 | sending the same update twice has the effect of sending it once |
| PatchFacts.RetitleRequest | marble_api/versions/v1/data_request/routes.py:58 | the counterexample's update gives only the title |
| PatchFacts.ForeignRecordPatchedAsWritten | marble_api/versions/v1/data_request/routes.py:65 | as written, alice's route retitles bob's record; with the owner in the selector it is 404 |
| PatchFacts.RetitleWithoutOwner | marble_api/versions/v1/data_request/routes.py:65-69 | selecting by identifier alone finds and retitles another user's record |
| PatchFacts.RetitleWithOwner | marble_api/versions/v1/data_request/routes.py:85-88 | selecting by identifier and owner does not find another user's record |
| PatchFacts.RetitlePrelude | marble_api/versions/v1/data_request/routes.py:58-65 | the counterexample's update and identifier pass the checks before the store is read |
| PatchFacts.RetitleIsValid | marble_api/versions/v1/data_request/models.py:66-75 | the counterexample's update validates unchanged |

## Left out

- Mongo: the database client and its calls are not modelled. The store is a sequence of `(id, record)` pairs, queries are filters over it and writes produce a new sequence.
- HTTP: the FastAPI and Starlette plumbing, `_is_router_scope` and the serialization-error dependency are not modelled. The router that served a request is a `Scope` parameter.
- Link URLs: `include_query_params` and the rest of the URL building are left out. A link is the cursor string it carries.
- Other routes: creating, reading and deleting one record are not part of this model. The read and delete selectors appear only as the owner rule that `PatchDataRequest` adopts.
- `stac=True` in the listing: this only attaches `stac_item` to each listed record, and `Models.StacItemOf` models that projection.
- Pydantic geometry validation beyond array depth and position size: ring closure and minimum lengths are not checked.
- Email validation of `contact` and the authors' addresses: values are kept as given.
- The STAC `Links` schema: links are kept as given.
- ISO formatting: `isoformat` is a symbolic constructor, so the exact text of the rendering is left out.
- Floats: floating-point behaviour, such as NaN and rounding, is left out. Coordinates are exact reals, which is adequate for min and max.
- The `if geo` filter in the FeatureCollection branch (geojson.py:64): every extracted geometry is taken to be truthy.
- The no-op `data_request.user = user` (routes.py:63-64): it runs after the written fields are computed, so it has no effect.
- Object identifiers: `bson.ObjectId` also accepts 12-byte values. Only strings of paths and cursors are modelled. The time, machine and counter parts of an ObjectId are left out: identifiers are numbers below 16^24 that sort as ObjectIds do.
- ObjectIds.ParseObjectId: `bytes.fromhex` skips ASCII whitespace between digit pairs, so `bson.ObjectId` also accepts some 24-character strings with spaces in them. The model accepts only strings of exactly 24 hex digits and treats the whitespace forms as malformed.
- PagingFacts.WalkListsEverything: completeness is stated over `ListPage` of the caller's listing. `Routes.FirstPage`, `Routes.FollowLink` and `PagingFacts.LinkIdsInRange` connect it to the route, rather than one lemma over `GetDataRequests`.
- PagingFacts.PrevOfNextIsSamePage: going back from the next page restores the records and the next link, and the whole page except in one case. An `after` page whose cursor is below every listed identifier still has a prev link, but the page reached back through `before` has none.
- PagingFacts.NextOfPrevIsSamePage: going forward from the previous page restores the records and the prev link, and the whole page except in one case. A `before` page that no listed record follows still has a next link, but the page reached forward through `after` has none.
- Routes.ListPage: its own contract states only the size bound. What a page holds is stated by PagingFacts.FirstPageIsPrefix, AfterPageIsWindow and BeforePageIsWindow.

## Findings

| source | as written | input that shows it | evidently intended | confidence | as-written member | corrected member |
|---|---|---|---|---|---|---|
| marble_api/utils/geojson.py:63-70 | `geojson.type` is read before the `geojson is None` test, so a Feature whose geometry is null fails with an attribute error | `{"type": "Feature", "geometry": null}`, alone or inside a FeatureCollection | a null geometry contributes no geometries (the unreachable `return []`) | not executed | GeojsonFacts.NullFeatureFailsAsWritten | GeojsonFacts.NullFeatureContributesNothing |
| marble_api/utils/geojson.py:65-66 | GeometryCollection members are returned as they are, so a nested collection hides its members' types from validation and then has no coordinates to merge | a GeometryCollection holding a GeometryCollection of a Point and a LineString passes validation | nested collections are flattened like the rest ("all geometries ... as a flat list"); this also newly accepts an empty inner collection beside another geometry, which the code as written refuses | not executed, intent read from the docstring | GeojsonFacts.NestedCollectionPassesAsWritten | GeojsonFacts.NestedCollectionRejected |
| marble_api/versions/v1/data_request/routes.py:65 | the update's selector is the identifier alone, even under a user's prefix | alice sends PATCH `/users/alice/data-requests/<id of bob's record>` with a new title, and bob's record is retitled | under a user's prefix only that user's records are selected, as the read and delete routes do (routes.py:86-87, 104-105) | not executed | PatchFacts.ForeignRecordPatchedAsWritten | Routes.PatchDataRequest |
