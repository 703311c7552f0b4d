/** Properties of the partial-update route: what it keeps, what it changes,
    and what the selector without an owner lets through. */
module PatchFacts {
  import opened Wrappers
  import opened ObjectIds
  import opened Models
  import ModelsFacts
  import opened Routes

  /** Two stores with the same identifiers at every position are ordered alike. */
  lemma {:induction false} SameIdsAscending(s: seq<Stored>, t: seq<Stored>)
    requires IdsAscending(s)
    requires |s| == |t| && forall j :: 0 <= j < |s| ==> s[j].id == t[j].id
    ensures IdsAscending(t)
  {
    if |s| >= 2 {
      assert s[0].id == t[0].id && s[1].id == t[1].id;
      assert forall j :: 0 <= j < |s[1..]| ==> s[1..][j].id == t[1..][j].id;
      SameIdsAscending(s[1..], t[1..]);
    }
  }

  /** The update the route writes is the validated one. */
  lemma WrittenUpdateIsValid(scope: Scope, requestId: string, u: DataRequestUpdate)
    requires PatchPrelude(scope, requestId, u).Ok?
    ensures ValidUpdate(PatchPrelude(scope, requestId, u).value.1)
  {
  }

  /** Writing a validated update keeps a store as the API keeps it. */
  lemma PatchSelectedKeepsStoreValid(store: seq<Stored>, id: nat, owner: Option<string>, v: DataRequestUpdate)
    requires ValidStore(store) && ValidUpdate(v)
    requires PatchSelected(store, id, owner, v).Ok?
    ensures ValidStore(PatchSelected(store, id, owner, v).value.store)
  {
    var i := Find(store, id, owner).value;
    if UpdatedFields(v) != {} {
      var t := PatchSelected(store, id, owner, v).value.store;
      var updated := Stored(store[i].id, ApplyUpdate(store[i].record, v));
      assert t == store[i := updated];
      ModelsFacts.UpdatePreservesValidity(store[i].record, v);
      assert ValidRecord(updated.record);
      SameIdsAscending(store, t);
      forall j | 0 <= j < |t|
        ensures t[j].id < IdBound && ValidRecord(t[j].record)
      {
        if j != i {
          assert t[j] == store[j];
        }
      }
    }
  }

  /** Every successful update leaves a store as the API keeps it: identifiers in
      place and in order, and every record still validated. */
  lemma PatchKeepsStoreValid(store: seq<Stored>, scope: Scope, requestId: string, u: DataRequestUpdate)
    requires ValidStore(store)
    requires PatchDataRequest(store, scope, requestId, u).Ok?
    ensures ValidStore(PatchDataRequest(store, scope, requestId, u).value.store)
  {
    var (id, v) := PatchPrelude(scope, requestId, u).value;
    WrittenUpdateIsValid(scope, requestId, u);
    PatchSelectedKeepsStoreValid(store, id, Owner(scope), v);
  }

  /** Validation writes the same fields the request names. */
  lemma ValidationKeepsUpdatedFields(u: DataRequestUpdate)
    requires ValidateUpdate(u).Ok?
    ensures UpdatedFields(ValidateUpdate(u).value) == UpdatedFields(u)
  {
    var v := ValidateUpdate(u).value;
    assert !UpdateFieldRejected(u, "temporal");
    assert !v.temporal.Unset? <==> !u.temporal.Unset?;
    assert forall f :: Supplied(v, f) <==> Supplied(u, f);
  }

  /** An update that names no field leaves the store as it is and returns the
      stored record, with its identifier. */
  lemma EmptyPatchChangesNothing(store: seq<Stored>, scope: Scope, requestId: string, u: DataRequestUpdate)
    requires UpdatedFields(u) == {}
    requires PatchDataRequest(store, scope, requestId, u).Ok?
    ensures PatchDataRequest(store, scope, requestId, u).value.store == store
    ensures exists j :: 0 <= j < |store| && PatchDataRequest(store, scope, requestId, u).value.response == Public(store[j]) &&
                        Some(store[j].id) == ParseObjectId(requestId) && InScope(store[j], scope)
  {
    ValidationKeepsUpdatedFields(u);
    var (id, v) := PatchPrelude(scope, requestId, u).value;
    var i := Find(store, id, Owner(scope)).value;
    assert PatchDataRequest(store, scope, requestId, u).value.response == Public(store[i]);
  }

  /** A given field's value after the update is the value the request gives
      (sorted, for the period); the fields the request leaves out keep their
      stored values. */
  lemma PatchWritesOnlySuppliedFields(store: seq<Stored>, scope: Scope, requestId: string, u: DataRequestUpdate, j: nat)
    requires PatchDataRequest(store, scope, requestId, u).Ok?
    requires j < |store|
    ensures var after := PatchDataRequest(store, scope, requestId, u).value.store[j];
            after.id == store[j].id &&
            AgreeOutside(after.record, store[j].record, UpdatedFields(u)) &&
            (after != store[j] ==> Carries(after.record, ValidateUpdate(u).value))
  {
    var (id, v) := PatchPrelude(scope, requestId, u).value;
    ValidationKeepsUpdatedFields(u);
    var i := Find(store, id, Owner(scope)).value;
    if UpdatedFields(v) != {} && j == i {
      assert PatchDataRequest(store, scope, requestId, u).value.store[j].record == ApplyUpdate(store[i].record, v);
    }
  }

  /** In user scope, an update that hands the record to another user is
      refused with 403, and nothing is written. */
  lemma HandingOverIsForbidden(store: seq<Stored>, user: string, requestId: string, u: DataRequestUpdate, other: string)
    requires ValidateUpdate(u).Ok?
    requires u.user == Set(other) && other != "" && other != user
    ensures PatchDataRequest(store, UserScope(user), requestId, u) == Err(Forbidden)
  {
  }

  /** An identifier that is not 24 hexadecimal digits is answered with 404
      once the update itself is acceptable. */
  lemma MalformedIdIsNotFound(store: seq<Stored>, scope: Scope, requestId: string, u: DataRequestUpdate)
    requires ValidateUpdate(u).Ok? && !ChangesOwner(scope, u)
    requires |requestId| != IdLength
    ensures PatchDataRequest(store, scope, requestId, u) == Err(NotFound)
  {
  }

  /** The first match of a selector is found again after the matched record is
      replaced by one the selector still matches. */
  lemma FindAfterReplace(s: seq<Stored>, id: nat, owner: Option<string>, x: Stored)
    requires Find(s, id, owner).Some? && Selects(x, id, owner)
    ensures Find(s[Find(s, id, owner).value := x], id, owner) == Find(s, id, owner)
  {
    var i := Find(s, id, owner).value;
    var t := s[i := x];
    assert Selects(t[i], id, owner);
    assert forall j :: 0 <= j < i ==> t[j] == s[j] && !Selects(t[j], id, owner);
  }

  /** Sending the same update twice leaves the store and the response as one
      sending does. */
  lemma PatchSelectedIdempotent(store: seq<Stored>, id: nat, owner: Option<string>, v: DataRequestUpdate)
    requires PatchSelected(store, id, owner, v).Ok?
    requires owner.Some? && v.user.Set? ==> v.user.value == owner.value
    ensures var once := PatchSelected(store, id, owner, v).value;
            PatchSelected(once.store, id, owner, v) == Ok(once)
  {
    var i := Find(store, id, owner).value;
    if UpdatedFields(v) != {} {
      var updated := Stored(store[i].id, ApplyUpdate(store[i].record, v));
      var t := store[i := updated];
      assert PatchSelected(store, id, owner, v) == Ok(Patched(t, Public(updated)));
      assert Selects(updated, id, owner);
      FindAfterReplace(store, id, owner, updated);
      ModelsFacts.UpdateIdempotent(store[i].record, v);
      assert t[i := Stored(t[i].id, ApplyUpdate(t[i].record, v))] == t;
    }
  }

  /** Repeating an update is harmless: the second request finds the record the
      first one wrote and writes nothing new. */
  lemma PatchIdempotent(store: seq<Stored>, scope: Scope, requestId: string, u: DataRequestUpdate)
    requires PatchDataRequest(store, scope, requestId, u).Ok?
    ensures var once := PatchDataRequest(store, scope, requestId, u).value;
            PatchDataRequest(once.store, scope, requestId, u) == Ok(once)
  {
    var (id, v) := PatchPrelude(scope, requestId, u).value;
    WrittenUpdateIsValid(scope, requestId, u);
    assert !UpdateFieldRejected(v, "user");
    PatchSelectedIdempotent(store, id, Owner(scope), v);
  }

  // ---------------------------------------------------------------------------
  // The selector as written

  /** The update request of the counterexample: a new title, nothing else. */
  function RetitleRequest(): (u: DataRequestUpdate)
    ensures UpdatedFields(u) == {"title"}
  {
    var u := DataRequestUpdate(Unset, Unset, Set("renamed"), Unset, Unset, Unset, Unset, Unset, Unset,
                               Unset, Unset, Unset, Unset);
    assert forall f :: Supplied(u, f) <==> f == "title";
    u
  }

  /** As written, a user can change another user's record: bob's record is
      retitled through alice's routes, where the update with the owner in its
      selector finds nothing. */
  lemma ForeignRecordPatchedAsWritten(bobs: DataRequest)
    requires ValidRecord(bobs) && bobs.user == "bob"
    ensures var store := [Stored(1, bobs)];
            var request := RenderObjectId(1);
            && PatchDataRequestAsWritten(store, UserScope("alice"), request, RetitleRequest()).Ok?
            && PatchDataRequestAsWritten(store, UserScope("alice"), request, RetitleRequest()).value.store[0].record.title == "renamed"
            && PatchDataRequest(store, UserScope("alice"), request, RetitleRequest()) == Err(NotFound)
  {
    RetitlePrelude();
    RetitleWithoutOwner(bobs);
    RetitleWithOwner(bobs, "alice");
  }

  /** Selecting by identifier alone, the record is found and retitled. */
  lemma RetitleWithoutOwner(d: DataRequest)
    ensures var r := PatchSelected([Stored(1, d)], 1, None, RetitleRequest());
            r.Ok? && r.value.store[0].record.title == "renamed"
  {
    var u := RetitleRequest();
    var store := [Stored(1, d)];
    assert Selects(store[0], 1, None);
    var r := PatchSelected(store, 1, None, u);
    var j :| 0 <= j < |store| && r.value.store[j].record == ApplyUpdate(store[j].record, u);
    assert j == 0;
  }

  /** Selecting by identifier and owner, another user's record is not found. */
  lemma RetitleWithOwner(d: DataRequest, caller: string)
    requires d.user != caller
    ensures PatchSelected([Stored(1, d)], 1, Some(caller), RetitleRequest()) == Err(NotFound)
  {
    assert !Selects([Stored(1, d)][0], 1, Some(caller));
  }

  /** The checks before the store is read pass for the counterexample. */
  lemma RetitlePrelude()
    ensures PatchPrelude(UserScope("alice"), RenderObjectId(1), RetitleRequest()) == Ok((1, RetitleRequest()))
  {
    RetitleIsValid();
    assert IdBound > 1 by {
      PowAtLeast(IdLength);
    }
    ParseRenderObjectId(1);
  }

  lemma RetitleIsValid()
    ensures ValidateUpdate(RetitleRequest()) == Ok(RetitleRequest())
  {
    var u := RetitleRequest();
    assert forall f :: !UpdateFieldRejected(u, f);
  }

  lemma {:induction false} PowAtLeast(n: nat)
    ensures Pow16(n) >= 1 && (n >= 1 ==> Pow16(n) >= 16)
  {
    if n > 0 {
      PowAtLeast(n - 1);
    }
  }
}
