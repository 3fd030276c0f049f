/** What each operation of ChecklistItemService does to the two tables, as a
    function of the tables before the call. The guards keep the polarity of the
    code as written: `validateChecklistItemData` rejects a description and a
    category guid that HAVE text, and `updateChecklistItem` looks the category
    up only when the category guid has NO text. The unit tests expect the
    opposite polarity (ChecklistItemServiceTest.java:64-77 passes a null
    description and expects the description error; :42-62 expects a create
    with a description and a category guid to succeed). */
module ChecklistItemRules {
  import opened Common
  import opened Text
  import opened Entities
  import opened Store

  const CHECKLIST_ITEM_NOT_FOUND: string := "ChecklistItem not found."
  const GUID_REQUIRED: string := "ChecklistItem guid cannot be empty or null"
  // the create path has no trailing period, the update path has one
  const CATEGORY_NOT_FOUND_ON_ADD: string := "Category not found"
  const CATEGORY_NOT_FOUND_ON_UPDATE: string := "Category not found."
  const DESCRIPTION_REQUIRED: string := "Checklist item must have a description"
  const COMPLETED_FLAG_REQUIRED: string := "Checklist item must have a flag indicating if it is completed or not"
  const DEADLINE_REQUIRED: string := "Checklist item must have a deadline"
  const CATEGORY_GUID_REQUIRED: string := "Checklist item category guid must be provided"

  /** validateChecklistItemData: four checks in a fixed order; the first that
      fires decides the message. */
  function ValidateChecklistItemData(
    description: Option<string>, isCompleted: Option<bool>,
    deadline: Option<Date>, categoryGuid: Option<string>): (r: Option<Error>)
    ensures r.None? <==>
      !HasText(description) && isCompleted.Some? && deadline.Some? && !HasText(categoryGuid)
    ensures r.Some? ==> r.value.IllegalArgument?
    ensures HasText(description) ==> r == Some(IllegalArgument(DESCRIPTION_REQUIRED))
    ensures !HasText(description) && isCompleted.None? ==>
      r == Some(IllegalArgument(COMPLETED_FLAG_REQUIRED))
    ensures !HasText(description) && isCompleted.Some? && deadline.None? ==>
      r == Some(IllegalArgument(DEADLINE_REQUIRED))
    ensures !HasText(description) && isCompleted.Some? && deadline.Some? && HasText(categoryGuid) ==>
      r == Some(IllegalArgument(CATEGORY_GUID_REQUIRED))
  {
    if HasText(description) then Some(IllegalArgument(DESCRIPTION_REQUIRED))
    else if isCompleted.None? then Some(IllegalArgument(COMPLETED_FLAG_REQUIRED))
    else if deadline.None? then Some(IllegalArgument(DEADLINE_REQUIRED))
    else if HasText(categoryGuid) then Some(IllegalArgument(CATEGORY_GUID_REQUIRED))
    else None
  }

  /** validatingGuid: an item guid must have text. */
  function ValidatingGuid(guid: Option<string>): (r: Option<Error>)
    ensures r.None? <==> HasText(guid)
    ensures r.Some? ==> r.value == IllegalArgument(GUID_REQUIRED)
  {
    if !HasText(guid) then Some(IllegalArgument(GUID_REQUIRED)) else None
  }

  /** addNewChecklistItem with `newGuid` for the random UUID and `today` for
      `LocalDate.now()`. */
  function AddNewChecklistItem(
    t: Tables, description: Option<string>, isCompleted: Option<bool>,
    deadline: Option<Date>, categoryGuid: Option<string>,
    newGuid: string, today: Date): (out: (Result<ChecklistItemEntity>, Tables))
    // a failing check decides the error before the category is looked up
    ensures ValidateChecklistItemData(description, isCompleted, deadline, categoryGuid).Some? ==>
      out == (Err(ValidateChecklistItemData(description, isCompleted, deadline, categoryGuid).value), t)
    ensures (ValidateChecklistItemData(description, isCompleted, deadline, categoryGuid).None?
             && Lookup(t.categories, categoryGuid).None?) ==>
      out == (Err(ResourceNotFound(CATEGORY_NOT_FOUND_ON_ADD)), t)
    ensures out.0.Ok? <==>
      ValidateChecklistItemData(description, isCompleted, deadline, categoryGuid).None?
      && Lookup(t.categories, categoryGuid).Some?
    ensures out.0.Err? ==> out.1 == t
    ensures out.0.Ok? ==>
      var item := out.0.value;
      && item.guid == newGuid
      && item.description == description
      && item.isCompleted == isCompleted
      && item.deadline == deadline
      && item.postedDate == Some(today)
      && item.category == categoryGuid && categoryGuid.value in t.categories
      && out.1 == Tables(t.categories, t.items[newGuid := item])
    ensures out.0.Ok? && newGuid !in t.items ==> |out.1.items| == |t.items| + 1
    ensures WellKeyed(t) ==> WellKeyed(out.1)
    ensures Integrity(t) ==> Integrity(out.1)
  {
    var invalid := ValidateChecklistItemData(description, isCompleted, deadline, categoryGuid);
    if invalid.Some? then (Err(invalid.value), t)
    else match Lookup(t.categories, categoryGuid)
      case None => (Err(ResourceNotFound(CATEGORY_NOT_FOUND_ON_ADD)), t)
      case Some(category) =>
        var item := ChecklistItemEntity(
          newGuid, isCompleted, description, deadline, Some(today), categoryGuid);
        (Ok(item), t.(items := t.items[newGuid := item]))
  }

  /** findAllChecklistItems: every stored item, and nothing else. */
  function FindAllChecklistItems(t: Tables): (r: set<ChecklistItemEntity>)
    ensures forall k :: k in t.items ==> t.items[k] in r
    ensures forall e :: e in r ==> exists k :: k in t.items && t.items[k] == e
    ensures WellKeyed(t) ==> forall e :: e in r ==> e.guid in t.items && t.items[e.guid] == e
  {
    t.items.Values
  }

  /** findChecklistItemByGuid. */
  function FindChecklistItemByGuid(t: Tables, guid: Option<string>): (r: Result<ChecklistItemEntity>)
    ensures !HasText(guid) ==> r == Err(IllegalArgument(GUID_REQUIRED))
    ensures HasText(guid) && guid.value !in t.items ==> r == Err(ResourceNotFound(CHECKLIST_ITEM_NOT_FOUND))
    ensures r.Ok? <==> HasText(guid) && guid.value in t.items
    ensures r.Ok? ==> r.value == t.items[guid.value]
  {
    match ValidatingGuid(guid)
    case Some(e) => Err(e)
    case None =>
      match Lookup(t.items, guid)
      case None => Err(ResourceNotFound(CHECKLIST_ITEM_NOT_FOUND))
      case Some(item) => Ok(item)
  }

  /** deleteChecklistItem. */
  function DeleteChecklistItem(t: Tables, guid: Option<string>): (out: (Outcome, Tables))
    ensures !HasText(guid) ==> out == (Failure(IllegalArgument(GUID_REQUIRED)), t)
    ensures HasText(guid) && guid.value !in t.items ==>
      out == (Failure(ResourceNotFound(CHECKLIST_ITEM_NOT_FOUND)), t)
    ensures out.0.Success? <==> HasText(guid) && guid.value in t.items
    ensures out.0.Failure? ==> out.1 == t
    ensures out.0.Success? ==> out.1 == Tables(t.categories, t.items - {guid.value})
    ensures out.0.Success? ==> |out.1.items| == |t.items| - 1
    ensures WellKeyed(t) ==> WellKeyed(out.1)
    ensures Integrity(t) ==> Integrity(out.1)
  {
    match ValidatingGuid(guid)
    case Some(e) => (Failure(e), t)
    case None =>
      match Lookup(t.items, guid)
      case None => (Failure(ResourceNotFound(CHECKLIST_ITEM_NOT_FOUND)), t)
      case Some(item) => (Success, t.(items := t.items - {guid.value}))
  }

  /** updateChecklistItem: a partial patch of the row found under `guid`. The
      code sets the description twice under the same condition; here it is
      set once (the service method keeps both blocks and is proved equal). */
  function UpdateChecklistItem(
    t: Tables, guid: Option<string>, description: Option<string>,
    isCompleted: Option<bool>, deadline: Option<Date>,
    categoryGuid: Option<string>): (out: (Result<ChecklistItemEntity>, Tables))
    ensures !HasText(guid) ==> out == (Err(IllegalArgument(GUID_REQUIRED)), t)
    ensures HasText(guid) && guid.value !in t.items ==>
      out == (Err(ResourceNotFound(CHECKLIST_ITEM_NOT_FOUND)), t)
    ensures (HasText(guid) && guid.value in t.items
             && !HasText(categoryGuid) && Lookup(t.categories, categoryGuid).None?) ==>
      out == (Err(ResourceNotFound(CATEGORY_NOT_FOUND_ON_UPDATE)), t)
    ensures out.0.Ok? <==>
      HasText(guid) && guid.value in t.items
      && (HasText(categoryGuid) || Lookup(t.categories, categoryGuid).Some?)
    ensures out.0.Err? ==> out.1 == t
    ensures out.0.Ok? ==>
      var before := t.items[guid.value];
      var after := out.0.value;
      && after.guid == before.guid
      && after.postedDate == before.postedDate
      && after.description == (if HasText(description) then description else before.description)
      && after.isCompleted == (if isCompleted.Some? then isCompleted else before.isCompleted)
      && after.deadline == (if deadline.Some? then deadline else before.deadline)
      && after.category == (if HasText(categoryGuid) then before.category else categoryGuid)
      && out.1 == Tables(t.categories, t.items[guid.value := after])
    ensures WellKeyed(t) ==> WellKeyed(out.1)
    ensures Integrity(t) ==> Integrity(out.1)
  {
    match ValidatingGuid(guid)
    case Some(e) => (Err(e), t)
    case None =>
      match Lookup(t.items, guid)
      case None => (Err(ResourceNotFound(CHECKLIST_ITEM_NOT_FOUND)), t)
      case Some(item) =>
        var described := if HasText(description) then item.(description := description) else item;
        var flagged := if isCompleted.Some? then described.(isCompleted := isCompleted) else described;
        var patched := if deadline.Some? then flagged.(deadline := deadline) else flagged;
        if HasText(categoryGuid) then
          (Ok(patched), t.(items := t.items[guid.value := patched]))
        else
          match Lookup(t.categories, categoryGuid)
          case None => (Err(ResourceNotFound(CATEGORY_NOT_FOUND_ON_UPDATE)), t)
          case Some(category) =>
            var relinked := patched.(category := categoryGuid);
            (Ok(relinked), t.(items := t.items[guid.value := relinked]))
  }

  /** Round trip: an item that was created is found again under its guid,
      field for field, when that guid has text (as a UUID does). */
  lemma CreatedItemIsFound(
    t: Tables, description: Option<string>, isCompleted: Option<bool>,
    deadline: Option<Date>, categoryGuid: Option<string>, newGuid: string, today: Date)
    requires HasText(Some(newGuid))
    requires AddNewChecklistItem(t, description, isCompleted, deadline, categoryGuid, newGuid, today).0.Ok?
    ensures
      var out := AddNewChecklistItem(t, description, isCompleted, deadline, categoryGuid, newGuid, today);
      FindChecklistItemByGuid(out.1, Some(newGuid)) == out.0
  {
  }

  /** As written, create needs a category stored under a guid WITHOUT text, so
      it always fails once every category guid has text. */
  lemma AsWrittenCreateFailsOnTextGuids(
    t: Tables, description: Option<string>, isCompleted: Option<bool>,
    deadline: Option<Date>, categoryGuid: Option<string>, newGuid: string, today: Date)
    requires CategoryGuidsHaveText(t)
    ensures AddNewChecklistItem(t, description, isCompleted, deadline, categoryGuid, newGuid, today).0.Err?
  {
    if categoryGuid.Some? && categoryGuid.value in t.categories {
      assert HasText(categoryGuid);
    }
  }
}
