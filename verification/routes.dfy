/** The data-request routes (marble_api/versions/v1/data_request/routes.py):
    parsing a request identifier, listing data requests a page at a time with
    cursors, and partially updating one data request.

    The store is a sequence of records with their identifiers; a store the API
    has written holds validated records in ascending identifier order, which is
    the order the listing sorts by. The routes are reached under a user's prefix
    (user scope: only that user's records are listed) or under the admin
    prefix (admin scope: every record). Store queries become filters over the
    sequence; a store write becomes a new sequence. */
module Routes {
  import opened Wrappers
  import opened ObjectIds
  import opened Models
  import ModelsFacts

  /** An HTTP error response, by status code. */
  datatype HttpError = HttpError(status: nat)

  const Forbidden: HttpError := HttpError(403)
  const NotFound: HttpError := HttpError(404)
  const Unprocessable: HttpError := HttpError(422)

  /** Which router served the request. */
  datatype Scope = UserScope(user: string) | AdminScope

  /** A stored record and its identifier. */
  datatype Stored = Stored(id: nat, record: DataRequest)

  /** Identifiers strictly increase along the sequence (so they are unique). */
  predicate IdsAscending(s: seq<Stored>)
  {
    |s| < 2 || (s[0].id < s[1].id && IdsAscending(s[1..]))
  }

  /** Ascending means every earlier identifier is below every later one. */
  lemma {:induction false} AscendingPairs(s: seq<Stored>)
    requires IdsAscending(s)
    ensures forall i, j :: 0 <= i < j < |s| ==> s[i].id < s[j].id
  {
    if |s| >= 2 {
      AscendingPairs(s[1..]);
      forall i, j | 0 <= i < j < |s|
        ensures s[i].id < s[j].id
      {
        assert s[1..][j - 1] == s[j];
        if i > 0 {
          assert s[1..][i - 1] == s[i];
        } else if j > 1 {
          assert s[1..][0] == s[1];
        }
      }
    }
  }

  /** A sequence whose identifiers are pairwise ordered is ascending. */
  lemma {:induction false} PairsAscending(s: seq<Stored>)
    requires forall i, j :: 0 <= i < j < |s| ==> s[i].id < s[j].id
    ensures IdsAscending(s)
  {
    if |s| >= 2 {
      forall i, j | 0 <= i < j < |s[1..]|
        ensures s[1..][i].id < s[1..][j].id
      {
        assert s[1..][i] == s[i + 1] && s[1..][j] == s[j + 1];
      }
      PairsAscending(s[1..]);
    }
  }

  /** The store as the API keeps it: identifiers unique, in ascending order and
      within the identifier range, and every record validated. */
  predicate ValidStore(s: seq<Stored>)
  {
    IdsAscending(s) && forall i :: 0 <= i < |s| ==> s[i].id < IdBound && ValidRecord(s[i].record)
  }

  /** The record a route returns: the stored record with its rendered identifier. */
  function Public(s: Stored): DataRequestPublic
  {
    DataRequestPublic(RenderObjectId(s.id), s.record)
  }

  /** A request identifier from the path or from a cursor: a malformed one is
      answered with 404 not found, as if no record had it. */
  function DataRequestId(s: string): (r: Result<nat, HttpError>)
    ensures r.Err? <==> ParseObjectId(s).None?
    ensures r.Err? ==> r.error == NotFound
    ensures r.Ok? ==> r.value < IdBound && |s| == IdLength
  {
    match ParseObjectId(s)
    case Some(id) => Ok(id)
    case None => Err(NotFound)
  }

  // ---------------------------------------------------------------------------
  // Store queries

  /** The records a query selects, in store order. */
  function Filter(s: seq<Stored>, keep: Stored -> bool): (r: seq<Stored>)
    ensures |r| <= |s|
  {
    if |s| == 0 then []
    else if keep(s[0]) then [s[0]] + Filter(s[1..], keep)
    else Filter(s[1..], keep)
  }

  /** A query selects exactly the stored records it keeps. */
  lemma {:induction false} FilterMembers(s: seq<Stored>, keep: Stored -> bool)
    ensures forall x :: x in Filter(s, keep) <==> x in s && keep(x)
  {
    if |s| > 0 {
      FilterMembers(s[1..], keep);
      assert s == [s[0]] + s[1..];
    }
  }

  /** A query keeps the store's order. */
  lemma {:induction false} FilterAscending(s: seq<Stored>, keep: Stored -> bool)
    requires IdsAscending(s)
    ensures IdsAscending(Filter(s, keep))
  {
    if |s| > 0 {
      FilterAscending(s[1..], keep);
      if keep(s[0]) {
        FilterMembers(s[1..], keep);
        HeadBelowTail(s);
        PrependAscending(s[0], Filter(s[1..], keep));
      }
    }
  }

  /** In an ascending sequence the first identifier is below all later ones. */
  lemma HeadBelowTail(s: seq<Stored>)
    requires IdsAscending(s) && |s| > 0
    ensures forall x :: x in s[1..] ==> s[0].id < x.id
  {
    AscendingPairs(s);
    forall x | x in s[1..]
      ensures s[0].id < x.id
    {
      var j :| 0 <= j < |s[1..]| && s[1..][j] == x;
      assert s[j + 1] == x;
    }
  }

  lemma PrependAscending(x: Stored, rest: seq<Stored>)
    requires IdsAscending(rest) && forall y :: y in rest ==> x.id < y.id
    ensures IdsAscending([x] + rest)
  {
    if |rest| > 0 {
      assert ([x] + rest)[1..] == rest;
      assert rest[0] in rest;
    }
  }

  /** The record belongs to the scope: every record in admin scope, the user's
      own records in user scope. */
  predicate InScope(x: Stored, scope: Scope)
  {
    scope.AdminScope? || x.record.user == scope.user
  }

  /** The records the scope may list. */
  function Scoped(store: seq<Stored>, scope: Scope): (r: seq<Stored>)
    ensures forall x {:trigger x in r} :: x in r <==> x in store && InScope(x, scope)
  {
    var keep := (x: Stored) => InScope(x, scope);
    FilterMembers(store, keep);
    Filter(store, keep)
  }

  /** The records with an identifier greater than a. */
  function Above(m: seq<Stored>, a: nat): (r: seq<Stored>)
    ensures forall x {:trigger x in r} :: x in r <==> x in m && x.id > a
  {
    var keep := (x: Stored) => x.id > a;
    FilterMembers(m, keep);
    Filter(m, keep)
  }

  /** The records with an identifier less than b. */
  function Below(m: seq<Stored>, b: nat): (r: seq<Stored>)
    ensures forall x {:trigger x in r} :: x in r <==> x in m && x.id < b
  {
    var keep := (x: Stored) => x.id < b;
    FilterMembers(m, keep);
    Filter(m, keep)
  }

  /** At most the first n elements, as a cursor limited to n yields them. */
  function Take(s: seq<Stored>, n: nat): (r: seq<Stored>)
    ensures r <= s && |r| <= n
    ensures |r| < n ==> r == s
  {
    if |s| <= n then s else s[..n]
  }

  function Reverse(s: seq<Stored>): (r: seq<Stored>)
    ensures |r| == |s|
    ensures forall i :: 0 <= i < |s| ==> r[i] == s[|s| - 1 - i]
  {
    seq(|s|, i requires 0 <= i < |s| => s[|s| - 1 - i])
  }

  /** At most the last n elements, in order. */
  function Last(s: seq<Stored>, n: nat): (r: seq<Stored>)
    ensures |r| <= |s| && r == s[|s| - |r|..] && |r| <= n
    ensures |r| < n ==> r == s
  {
    if |s| <= n then s else s[|s| - n..]
  }

  /** A query sorted in descending order and limited to n, reversed again,
      yields the last n records in ascending order. */
  lemma LastIsReversedFetch(s: seq<Stored>, n: nat)
    ensures Reverse(Take(Reverse(s), n)) == Last(s, n)
  {
    var r := Reverse(Take(Reverse(s), n));
    assert |r| == |Last(s, n)|;
    forall i | 0 <= i < |r|
      ensures r[i] == Last(s, n)[i]
    {
    }
  }

  // ---------------------------------------------------------------------------
  // Listing

  const DefaultLimit: int := 10
  const MaxLimit: int := 100

  /** The page size the query validation accepts. */
  predicate LimitOk(limit: int)
  {
    0 < limit <= MaxLimit
  }

  /** A page of the listing: its records, and the identifiers the next and the
      previous link carry as cursors. */
  datatype Page = Page(items: seq<Stored>, next: Option<nat>, prev: Option<nat>)

  /** A navigation link: a next link carries an `after` cursor, a previous link
      a `before` cursor. */
  datatype PageLink = Next(after: string) | Prev(before: string)

  /** The page's links, the next link first. */
  function PageLinks(p: Page): (links: seq<PageLink>)
    ensures |links| == (if p.next.Some? then 1 else 0) + (if p.prev.Some? then 1 else 0)
    ensures forall l :: l in links && l.Next? ==> p.next.Some? && l.after == RenderObjectId(p.next.value)
    ensures forall l :: l in links && l.Prev? ==> p.prev.Some? && l.before == RenderObjectId(p.prev.value)
    ensures p.next.Some? ==> links[0] == Next(RenderObjectId(p.next.value))
    ensures p.prev.Some? ==> links[|links| - 1] == Prev(RenderObjectId(p.prev.value))
  {
    (if p.next.Some? then [Next(RenderObjectId(p.next.value))] else []) +
    (if p.prev.Some? then [Prev(RenderObjectId(p.prev.value))] else [])
  }

  /** Turning the fetched records (at most one more than the limit) into a page:
      the extra record is dropped from the far end, and the cursors are the
      identifiers at the page's ends. A page reached with `after` always links
      back; one reached with `before` always links forward. */
  function Paginate(fetched: seq<Stored>, limit: int, afterGiven: bool, beforeGiven: bool): (p: Page)
    requires 0 < limit && |fetched| <= limit + 1
    ensures |p.items| <= limit
    ensures p.items <= fetched || (|fetched| > 0 && p.items == fetched[1..])
    ensures afterGiven && |p.items| > 0 ==> p.prev.Some?
    ensures !afterGiven && beforeGiven && |p.items| > 0 ==> p.next.Some?
    ensures !afterGiven && !beforeGiven ==> p.prev.None?
    ensures |p.items| == 0 ==> p.next.None? && p.prev.None?
    ensures p.next.Some? ==> |p.items| > 0 && p.next.value == p.items[|p.items| - 1].id
    ensures p.prev.Some? ==> |p.items| > 0 && p.prev.value == p.items[0].id
  {
    var overLimit := |fetched| > limit;
    if |fetched| == 0 then Page(fetched, None, None)
    else if afterGiven then
      var items := if overLimit then fetched[..|fetched| - 1] else fetched;
      Page(items, if overLimit then Some(items[|items| - 1].id) else None, Some(items[0].id))
    else if beforeGiven then
      var items := if overLimit then fetched[1..] else fetched;
      Page(items, Some(items[|items| - 1].id), if overLimit then Some(items[0].id) else None)
    else if overLimit then
      var items := fetched[..|fetched| - 1];
      Page(items, Some(items[|items| - 1].id), None)
    else
      Page(fetched, None, None)
  }

  /** A cursor parameter counts when it is given and non-empty. */
  predicate Given(cursor: Option<string>)
  {
    cursor.Some? && cursor.value != ""
  }

  /** Where a page starts: from the start of the listing, after the record with
      a given identifier, or before it. */
  datatype Cursor = FromStart | After(id: nat) | Before(id: nat)

  /** The cursor a request names: `after` when it is given, else `before` when
      it is given, else none. A malformed cursor is 404. */
  function ParseCursor(after: Option<string>, before: Option<string>): (r: Result<Cursor, HttpError>)
    ensures r.Err? <==> (Given(after) && ParseObjectId(after.value).None?) ||
                        (!Given(after) && Given(before) && ParseObjectId(before.value).None?)
    ensures r.Err? ==> r.error == NotFound
    ensures r.Ok? ==> (r.value.After? <==> Given(after)) && (r.value.Before? <==> !Given(after) && Given(before))
    ensures r.Ok? && r.value.After? ==> ParseObjectId(after.value) == Some(r.value.id)
    ensures r.Ok? && r.value.Before? ==> ParseObjectId(before.value) == Some(r.value.id)
  {
    if Given(after) then
      var a :- DataRequestId(after.value);
      Ok(After(a))
    else if Given(before) then
      var b :- DataRequestId(before.value);
      Ok(Before(b))
    else
      Ok(FromStart)
  }

  /** The records the store query returns for a page, one more than the
      limit: after the cursor in ascending order; before the cursor nearest
      first, put back in ascending order (the last records before it, by
      LastIsReversedFetch); or from the start. */
  function Fetch(m: seq<Stored>, c: Cursor, limit: nat): (r: seq<Stored>)
    ensures |r| <= limit + 1
  {
    match c
    case After(a) => Take(Above(m, a), limit + 1)
    case Before(b) => Last(Below(m, b), limit + 1)
    case FromStart => Take(m, limit + 1)
  }

  /** The fetched records are records of m on the cursor's side of the
      cursor. */
  lemma FetchBounds(m: seq<Stored>, c: Cursor, limit: nat)
    ensures forall x :: x in Fetch(m, c, limit) ==> x in m
    ensures c.After? ==> forall x :: x in Fetch(m, c, limit) ==> x.id > c.id
    ensures c.Before? ==> forall x :: x in Fetch(m, c, limit) ==> x.id < c.id
  {
    var fetched := Fetch(m, c, limit);
    match c
    case After(a) =>
      FilterMembers(m, (x: Stored) => x.id > a);
      assert forall x :: x in fetched ==> x in Above(m, a);
    case Before(b) =>
      FilterMembers(m, (x: Stored) => x.id < b);
      assert forall x :: x in fetched ==> x in Below(m, b);
    case FromStart =>
  }

  /** The page the listing m gives for a cursor. */
  function ListPage(m: seq<Stored>, c: Cursor, limit: int): (p: Page)
    requires LimitOk(limit)
    ensures |p.items| <= limit
  {
    Paginate(Fetch(m, c, limit), limit, c.After?, c.Before?)
  }

  /** The records of a page are records of m on the cursor's side of the
      cursor. */
  lemma PageBounds(m: seq<Stored>, c: Cursor, limit: int)
    requires LimitOk(limit)
    ensures forall x :: x in ListPage(m, c, limit).items ==>
              x in m && (c.After? ==> x.id > c.id) && (c.Before? ==> x.id < c.id)
  {
    var fetched := Fetch(m, c, limit);
    FetchBounds(m, c, limit);
    assert forall x :: x in ListPage(m, c, limit).items ==> x in fetched;
  }

  /** The page size a request asks for. */
  function LimitOf(limit: Option<int>): int
  {
    if limit.Some? then limit.value else DefaultLimit
  }

  /** The listing: a bad limit is refused, an `after` cursor takes precedence
      over a `before` cursor, and one record more than the limit is fetched to
      learn whether the listing continues. */
  function GetDataRequests(store: seq<Stored>, scope: Scope, after: Option<string>, before: Option<string>,
                           limit: Option<int>): (r: Result<Page, HttpError>)
    ensures r.Err? <==> !LimitOk(LimitOf(limit)) ||
                        (Given(after) && ParseObjectId(after.value).None?) ||
                        (!Given(after) && Given(before) && ParseObjectId(before.value).None?)
    ensures r.Err? ==> r.error == if LimitOk(LimitOf(limit)) then NotFound else Unprocessable
    ensures r.Ok? ==> |r.value.items| <= LimitOf(limit)
  {
    var lim := LimitOf(limit);
    if !LimitOk(lim) then Err(Unprocessable)
    else
      var c :- ParseCursor(after, before);
      Ok(ListPage(Scoped(store, scope), c, lim))
  }

  /** The records of every page are stored records the scope may list, on
      the cursor's side of the cursor. */
  lemma ListingRecords(store: seq<Stored>, scope: Scope, after: Option<string>, before: Option<string>,
                       limit: Option<int>)
    requires GetDataRequests(store, scope, after, before, limit).Ok?
    ensures var p := GetDataRequests(store, scope, after, before, limit).value;
            (forall x :: x in p.items ==> x in store && InScope(x, scope)) &&
            (Given(after) ==> forall x :: x in p.items ==> x.id > ParseObjectId(after.value).value) &&
            (!Given(after) && Given(before) ==> forall x :: x in p.items ==> x.id < ParseObjectId(before.value).value)
  {
    PageBounds(Scoped(store, scope), ParseCursor(after, before).value, LimitOf(limit));
    FilterMembers(store, x => InScope(x, scope));
  }

  /** The links of every page: a page without a cursor never links back, a
      non-empty page after a cursor always links back and one before a cursor
      always links forward, an empty page has no links, and the cursors are
      the identifiers at the page's ends. */
  lemma ListingLinks(store: seq<Stored>, scope: Scope, after: Option<string>, before: Option<string>,
                     limit: Option<int>)
    requires GetDataRequests(store, scope, after, before, limit).Ok?
    ensures var p := GetDataRequests(store, scope, after, before, limit).value;
            (!Given(after) && !Given(before) ==> p.prev.None?) &&
            (Given(after) && |p.items| > 0 ==> p.prev.Some?) &&
            (!Given(after) && Given(before) && |p.items| > 0 ==> p.next.Some?) &&
            (|p.items| == 0 ==> p.next.None? && p.prev.None?) &&
            (p.next.Some? ==> p.next.value == p.items[|p.items| - 1].id) &&
            (p.prev.Some? ==> p.prev.value == p.items[0].id)
  {
  }

  /** A link's cursor, rendered into the link and parsed back by the route,
      names the page the link was made for: following a link lists the page
      for the identifier it carries. */
  lemma FollowLink(store: seq<Stored>, scope: Scope, lim: int, id: nat)
    requires LimitOk(lim) && id < IdBound
    ensures GetDataRequests(store, scope, Some(RenderObjectId(id)), None, Some(lim)) ==
              Ok(ListPage(Scoped(store, scope), After(id), lim))
    ensures GetDataRequests(store, scope, None, Some(RenderObjectId(id)), Some(lim)) ==
              Ok(ListPage(Scoped(store, scope), Before(id), lim))
  {
    ParseRenderObjectId(id);
  }

  /** The first page is the page from the start of the scope's listing. */
  lemma FirstPage(store: seq<Stored>, scope: Scope, lim: int)
    requires LimitOk(lim)
    ensures GetDataRequests(store, scope, None, None, Some(lim)) == Ok(ListPage(Scoped(store, scope), FromStart, lim))
  {
  }

  // ---------------------------------------------------------------------------
  // Partial update

  /** The result of an update: the store afterwards and the record returned. */
  datatype Patched = Patched(store: seq<Stored>, response: DataRequestPublic)

  /** The stored record matches the update's selector: the identifier, and the
      owner when the selector names one. */
  predicate Selects(x: Stored, id: nat, owner: Option<string>)
  {
    x.id == id && (owner.None? || x.record.user == owner.value)
  }

  /** The position of the first record the selector matches. */
  function Find(store: seq<Stored>, id: nat, owner: Option<string>): (r: Option<nat>)
    ensures r.Some? ==> r.value < |store| && Selects(store[r.value], id, owner)
    ensures r.Some? ==> forall j :: 0 <= j < r.value ==> !Selects(store[j], id, owner)
    ensures r.None? ==> forall j :: 0 <= j < |store| ==> !Selects(store[j], id, owner)
  {
    if |store| == 0 then None
    else if Selects(store[0], id, owner) then Some(0)
    else
      match Find(store[1..], id, owner)
      case None => None
      case Some(k) => Some(k + 1)
  }

  /** A user may not hand a record to somebody else: in user scope, an update
      that gives a non-empty `user` other than the caller is forbidden. */
  predicate ChangesOwner(scope: Scope, u: DataRequestUpdate)
  {
    scope.UserScope? && u.user.Set? && u.user.value != "" && u.user.value != scope.user
  }

  /** The checks every update passes through, in order: the update's validation
      (422), the ownership rule (403), and the identifier (404). */
  function PatchPrelude(scope: Scope, requestId: string, u: DataRequestUpdate): (r: Result<(nat, DataRequestUpdate), HttpError>)
    ensures r.Err? ==> r.error in {Unprocessable, Forbidden, NotFound}
    ensures r.Err? && r.error == Unprocessable <==> ValidateUpdate(u).Err?
    ensures r.Err? && r.error == Forbidden <==> ValidateUpdate(u).Ok? && ChangesOwner(scope, u)
    ensures r.Err? && r.error == NotFound <==>
              ValidateUpdate(u).Ok? && !ChangesOwner(scope, u) && ParseObjectId(requestId).None?
    ensures r.Ok? ==> ValidateUpdate(u) == Ok(r.value.1) && ParseObjectId(requestId) == Some(r.value.0)
  {
    match ValidateUpdate(u)
    case Err(_) => Err(Unprocessable)
    case Ok(v) =>
      if ChangesOwner(scope, v) then Err(Forbidden)
      else
        var id :- DataRequestId(requestId);
        Ok((id, v))
  }

  /** Writing a validated update to the record the selector matches. An update
      that names no field only reads the record; otherwise the named fields are
      set and the record afterwards is returned. No match is 404. */
  function PatchSelected(store: seq<Stored>, id: nat, owner: Option<string>, v: DataRequestUpdate): (r: Result<Patched, HttpError>)
    ensures r.Err? <==> forall j :: 0 <= j < |store| ==> !Selects(store[j], id, owner)
    ensures r.Err? ==> r.error == NotFound
    ensures r.Ok? ==> |r.value.store| == |store|
    ensures r.Ok? ==> forall j :: 0 <= j < |store| ==> r.value.store[j].id == store[j].id
    ensures r.Ok? ==> forall j :: 0 <= j < |store| && r.value.store[j] != store[j] ==> Selects(store[j], id, owner)
    ensures r.Ok? ==> exists j :: 0 <= j < |store| && Selects(store[j], id, owner) &&
                                  r.value.store[j].record == ApplyUpdate(store[j].record, v) &&
                                  r.value.response == Public(r.value.store[j])
  {
    match Find(store, id, owner)
    case None => Err(NotFound)
    case Some(i) =>
      if UpdatedFields(v) == {} then
        ModelsFacts.EmptyUpdateChangesNothing(store[i].record, v);
        Ok(Patched(store, Public(store[i])))
      else
        var updated := Stored(store[i].id, ApplyUpdate(store[i].record, v));
        Ok(Patched(store[i := updated], Public(updated)))
  }

  /** The update route as written: the selector is the identifier alone, in
      either scope. */
  function PatchDataRequestAsWritten(store: seq<Stored>, scope: Scope, requestId: string, u: DataRequestUpdate): (r: Result<Patched, HttpError>)
    ensures r.Err? && r.error == Unprocessable <==> ValidateUpdate(u).Err?
    ensures r.Err? && r.error == Forbidden <==> ValidateUpdate(u).Ok? && ChangesOwner(scope, u)
    ensures r.Ok? ==> |r.value.store| == |store|
    ensures r.Ok? ==> forall j :: 0 <= j < |store| && r.value.store[j] != store[j] ==>
                        Some(store[j].id) == ParseObjectId(requestId)
  {
    var (id, v) :- PatchPrelude(scope, requestId, u);
    PatchSelected(store, id, None, v)
  }

  /** The selector an update should use: the identifier, and in user scope the
      caller as owner, as the routes that read and delete one record select. */
  function Owner(scope: Scope): Option<string>
  {
    if scope.UserScope? then Some(scope.user) else None
  }

  /** The update route with the owner in its selector: in user scope only the
      caller's own records can be changed, and another user's record is not
      found. */
  function PatchDataRequest(store: seq<Stored>, scope: Scope, requestId: string, u: DataRequestUpdate): (r: Result<Patched, HttpError>)
    ensures r.Err? && r.error == Unprocessable <==> ValidateUpdate(u).Err?
    ensures r.Err? && r.error == Forbidden <==> ValidateUpdate(u).Ok? && ChangesOwner(scope, u)
    ensures r.Err? ==> r.error in {Unprocessable, Forbidden, NotFound}
    ensures r.Err? && r.error == NotFound <==>
              ValidateUpdate(u).Ok? && !ChangesOwner(scope, u) &&
              (ParseObjectId(requestId).None? ||
               forall j :: 0 <= j < |store| ==> !Selects(store[j], ParseObjectId(requestId).value, Owner(scope)))
    ensures r.Ok? ==> |r.value.store| == |store|
    ensures r.Ok? ==> forall j :: 0 <= j < |store| ==> r.value.store[j].id == store[j].id
    ensures r.Ok? ==> forall j :: 0 <= j < |store| && r.value.store[j] != store[j] ==>
                        Some(store[j].id) == ParseObjectId(requestId) && InScope(store[j], scope)
  {
    var (id, v) :- PatchPrelude(scope, requestId, u);
    PatchSelected(store, id, Owner(scope), v)
  }
}
