/** Properties of the category routes that relate several calls or hold
    under the name-uniqueness invariant that creation maintains. */
module CategoryProperties {
  import opened Replies
  import opened Store
  import opened CategoryRoutes

  /** A successful create with a fresh id adds exactly one record, owned by
      the caller, and leaves every other record as it was. */
  lemma CreateAddsOneRecord(t: Table, newId: int, caller: int, name: Option<string>, description: Option<string>)
    requires newId !in t
    requires CreateCategory(t, newId, caller, name, description).reply.Ok?
    ensures var t' := CreateCategory(t, newId, caller, name, description).table;
            && t'.Keys == t.Keys + {newId}
            && |t'| == |t| + 1
            && t'[newId] == Category(name.value, description.value, caller)
            && forall id :: id in t ==> t'[id] == t[id]
  {
  }

  lemma CreatePreservesUniqueNames(t: Table, newId: int, caller: int, name: Option<string>, description: Option<string>)
    requires UniqueNames(t)
    ensures UniqueNames(CreateCategory(t, newId, caller, name, description).table)
  {
  }

  /** Repeating a successful create fails as a duplicate, whoever repeats it
      and whatever non-empty description is given. */
  lemma CreateSameNameTwice(t: Table, id1: int, id2: int, s1: int, s2: int,
                            name: Option<string>, d1: Option<string>, d2: Option<string>)
    requires CreateCategory(t, id1, s1, name, d1).reply.Ok?
    requires Truthy(d2)
    ensures var t' := CreateCategory(t, id1, s1, name, d1).table;
            CreateCategory(t', id2, s2, name, d2) == Outcome(Failure(422, Validation, DuplicateName), t')
  {
    var t' := CreateCategory(t, id1, s1, name, d1).table;
    assert id1 in Named(t', name.value);
  }

  /** Names are global: one supplier's "Drinks" blocks another supplier's. */
  lemma CreateDrinksTwoSuppliers()
    ensures var first := CreateCategory(map[], 1, 1, Some("Drinks"), Some("Beverages"));
            && first.reply.Ok?
            && CreateCategory(first.table, 2, 2, Some("Drinks"), Some("Other")).reply
               == Failure(422, Validation, DuplicateName)
  {
    var first := CreateCategory(map[], 1, 1, Some("Drinks"), Some("Beverages"));
    assert Named(map[], "Drinks") == {};
    assert 1 in Named(first.table, "Drinks");
  }

  /** A successful update renames nothing: record `id` must already carry
      the requested name and belong to the caller, and only its description
      changes; its id, its supplier and every other record stay the same. */
  lemma UpdateKeepsIdentity(t: Table, id: int, caller: int, name: Option<string>, description: Option<string>)
    requires UpdateCategory(t, id, caller, name, description).reply.Ok?
    ensures var t' := UpdateCategory(t, id, caller, name, description).table;
            && id in t && t'.Keys == t.Keys
            && t[id].name == name.value && t[id].supplierId == caller
            && t'[id] == Category(t[id].name, description.value, t[id].supplierId)
            && forall other :: other in t && other != id ==> t'[other] == t[other]
  {
  }

  /** Consequently update can never move a category to a name no record has:
      that request always ends in a 500. */
  lemma UpdateToFreshNameFails(t: Table, id: int, caller: int, name: string, description: Option<string>)
    requires name != "" && Truthy(description)
    requires forall k :: k in t ==> t[k].name != name
    ensures UpdateCategory(t, id, caller, Some(name), description) == Outcome(Failure(500, Internal, MissingRecord), t)
  {
  }

  /** The ownership check looks at the record holding the name: a supplier
      is refused an update of its own record when another supplier's record
      already has the requested name. */
  lemma UpdateOwnRecordRefused()
    ensures var t := map[1 := Category("Drinks", "Beverages", 1), 2 := Category("Food", "Meals", 2)];
            && t[1].supplierId == 1
            && UpdateCategory(t, 1, 1, Some("Food"), Some("Snacks")).reply == Failure(401, NotAllowed, NotOwner)
  {
    var t := map[1 := Category("Drinks", "Beverages", 1), 2 := Category("Food", "Meals", 2)];
    assert Named(t, "Food") == {2};
  }

  lemma UpdatePreservesUniqueNames(t: Table, id: int, caller: int, name: Option<string>, description: Option<string>)
    requires UniqueNames(t)
    ensures UniqueNames(UpdateCategory(t, id, caller, name, description).table)
  {
  }

  /** Under the invariant a name lookup returns at most one record, so the
      order in which the store lists matches does not matter. */
  lemma {:induction false} ByNameAtMostOne(t: Table, name: string)
    requires UniqueNames(t)
    ensures |ByName(t, name)| <= 1
  {
    var named := Named(t, name);
    if named != {} {
      var m := FirstNamed(t, name);
      assert named == {m};
    }
  }

  lemma DeletePreservesUniqueNames(t: Table, id: int, caller: int)
    requires UniqueNames(t)
    ensures UniqueNames(DeleteCategory(t, id, caller).table)
  {
  }

  /** After a successful delete the record is gone: reading it back, by
      anyone, ends in the 500 a missing record produces. */
  lemma DeleteThenGet(t: Table, id: int, caller: int, reader: Option<int>)
    requires DeleteCategory(t, id, caller).reply.Ok?
    ensures GetCategory(DeleteCategory(t, id, caller).table, id, reader) == Failure(500, Internal, MissingRecord)
  {
  }

  /** A caller reads a category only when it is the record's supplier. */
  lemma GetCategoryIsolation(t: Table, id: int, owner: int, other: Option<int>)
    requires id in t && t[id].supplierId == owner && other != Some(owner)
    ensures GetCategory(t, id, other) == Failure(401, NotAllowed, NotOwner)
    ensures GetCategory(t, id, Some(owner)) == Ok(Row(id, t[id]))
  {
  }
}
