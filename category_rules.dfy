/** What each operation of CategoryService does to the two tables, as a
    function of the tables before the call. The guards keep the polarity of the
    code as written: `updateCategory` rejects a name that HAS text, and
    `deleteCategory` and `findCategoryByGuid` reject a guid that HAS text. The
    unit tests expect the opposite: CategoryServiceTest.java:66-85 expects a
    rename to a name with text to succeed and :96-111 expect the reverse of the
    update guard; :114-150 expect a delete by a guid with text to reach the
    lookup and the in-use check; :152-173 expect the reverse of the find guard. */
module CategoryRules {
  import opened Common
  import opened Text
  import opened Entities
  import opened Store

  const NAME_REQUIRED: string := "Category name cannot be empty or null"
  const INVALID_UPDATE: string := "Invalid parameters provided to update a category"
  const CATEGORY_NOT_FOUND: string := "Category not found."
  const GUID_REQUIRED: string := "Category guid cannot be empty or null"
  const CATEGORY_IN_USE: string :=
    "It is not possible to delete given category as it has been used by checklist items"

  /** addNewCategory with `newGuid` for the random UUID. */
  function AddNewCategory(t: Tables, name: Option<string>, newGuid: string): (out: (Result<CategoryEntity>, Tables))
    ensures !HasText(name) ==> out == (Err(IllegalArgument(NAME_REQUIRED)), t)
    ensures HasText(name) ==>
      && out.0 == Ok(CategoryEntity(newGuid, name))
      && out.1 == Tables(t.categories[newGuid := out.0.value], t.items)
    ensures out.0.Ok? && newGuid !in t.categories ==> |out.1.categories| == |t.categories| + 1
    ensures WellKeyed(t) ==> WellKeyed(out.1)
    ensures Integrity(t) ==> Integrity(out.1)
  {
    if !HasText(name) then (Err(IllegalArgument(NAME_REQUIRED)), t)
    else
      var category := CategoryEntity(newGuid, name);
      (Ok(category), t.(categories := t.categories[newGuid := category]))
  }

  /** updateCategory: renames the row found under `guid`. */
  function UpdateCategory(t: Tables, guid: Option<string>, name: Option<string>): (out: (Result<CategoryEntity>, Tables))
    // the guard fires exactly when the guid is null or the name has text
    ensures out.0 == Err(IllegalArgument(INVALID_UPDATE)) <==> guid.None? || HasText(name)
    ensures (guid.Some? && !HasText(name) && guid.value !in t.categories) ==>
      out == (Err(ResourceNotFound(CATEGORY_NOT_FOUND)), t)
    ensures out.0.Ok? <==> guid.Some? && !HasText(name) && guid.value in t.categories
    ensures out.0.Err? ==> out.1 == t
    ensures out.0.Ok? ==>
      && out.0.value.guid == t.categories[guid.value].guid
      && out.0.value.name == name
      && out.1 == Tables(t.categories[guid.value := out.0.value], t.items)
    ensures out.1.categories.Keys == t.categories.Keys
    ensures WellKeyed(t) ==> WellKeyed(out.1)
    ensures Integrity(t) ==> Integrity(out.1)
  {
    if guid.None? || HasText(name) then (Err(IllegalArgument(INVALID_UPDATE)), t)
    else match Lookup(t.categories, guid)
      case None => (Err(ResourceNotFound(CATEGORY_NOT_FOUND)), t)
      case Some(category) =>
        var renamed := category.(name := name);
        (Ok(renamed), t.(categories := t.categories[guid.value := renamed]))
  }

  /** deleteCategory: removes the row found under `guid` unless an item still
      refers to it. */
  function DeleteCategory(t: Tables, guid: Option<string>): (out: (Outcome, Tables))
    ensures HasText(guid) ==> out == (Failure(IllegalArgument(GUID_REQUIRED)), t)
    ensures (!HasText(guid) && Lookup(t.categories, guid).None?) ==>
      out == (Failure(ResourceNotFound(CATEGORY_NOT_FOUND)), t)
    ensures (!HasText(guid) && Lookup(t.categories, guid).Some? && Referenced(t.items, guid.value)) ==>
      out == (Failure(CategoryServiceError(CATEGORY_IN_USE)), t)
    ensures out.0.Success? <==>
      !HasText(guid) && guid.Some? && guid.value in t.categories && !Referenced(t.items, guid.value)
    ensures out.0.Failure? ==> out.1 == t
    ensures out.0.Success? ==> out.1 == Tables(t.categories - {guid.value}, t.items)
    ensures WellKeyed(t) ==> WellKeyed(out.1)
    ensures Integrity(t) ==> Integrity(out.1)
  {
    if HasText(guid) then (Failure(IllegalArgument(GUID_REQUIRED)), t)
    else match Lookup(t.categories, guid)
      case None => (Failure(ResourceNotFound(CATEGORY_NOT_FOUND)), t)
      case Some(category) =>
        if FindByCategoryGuid(t.items, guid.value) != {} then
          (Failure(CategoryServiceError(CATEGORY_IN_USE)), t)
        else
          (Success, t.(categories := t.categories - {guid.value}))
  }

  /** findAllCategories: every stored category, and nothing else. */
  function FindAllCategories(t: Tables): (r: set<CategoryEntity>)
    ensures forall k :: k in t.categories ==> t.categories[k] in r
    ensures forall c :: c in r ==> exists k :: k in t.categories && t.categories[k] == c
    ensures WellKeyed(t) ==> forall c :: c in r ==> c.guid in t.categories && t.categories[c.guid] == c
  {
    t.categories.Values
  }

  /** findCategoryByGuid. */
  function FindCategoryByGuid(t: Tables, guid: Option<string>): (r: Result<CategoryEntity>)
    ensures HasText(guid) ==> r == Err(IllegalArgument(GUID_REQUIRED))
    ensures (!HasText(guid) && Lookup(t.categories, guid).None?) ==> r == Err(ResourceNotFound(CATEGORY_NOT_FOUND))
    ensures r.Ok? <==> !HasText(guid) && guid.Some? && guid.value in t.categories
    ensures r.Ok? ==> r.value == t.categories[guid.value]
  {
    if HasText(guid) then Err(IllegalArgument(GUID_REQUIRED))
    else match Lookup(t.categories, guid)
      case None => Err(ResourceNotFound(CATEGORY_NOT_FOUND))
      case Some(category) => Ok(category)
  }

  /** As written, a category that was created can never be fetched by its
      guid: the guid has text, and find rejects every guid with text before
      it looks at the tables, so the creation itself plays no part here (the
      general fact is the first `ensures` of `FindCategoryByGuid`). */
  lemma AsWrittenCreatedCategoryIsNotFound(t: Tables, name: Option<string>, newGuid: string)
    requires HasText(name)
    requires HasText(Some(newGuid))
    ensures FindCategoryByGuid(AddNewCategory(t, name, newGuid).1, Some(newGuid))
         == Err(IllegalArgument(GUID_REQUIRED))
  {
  }

  /** As written, delete needs a category stored under a guid WITHOUT text, so
      it always fails once every category guid has text. */
  lemma AsWrittenDeleteFailsOnTextGuids(t: Tables, guid: Option<string>)
    requires CategoryGuidsHaveText(t)
    ensures DeleteCategory(t, guid).0.Failure?
    ensures DeleteCategory(t, guid).1 == t
  {
    if guid.Some? && guid.value in t.categories {
      assert HasText(guid);
    }
  }
}
