/** ChecklistItemService over the two repositories. Each method takes the
    same steps as the Java method (checks, lookups, setters on the retrieved
    copy, one `save` or `delete`) and is proved equal to the matching function
    of ChecklistItemRules. */
module ChecklistItemService {
  import opened Common
  import opened Text
  import opened Entities
  import opened Store
  import opened Repositories
  import Rules = ChecklistItemRules

  class ChecklistItemService {
    const checklistItemRepository: ChecklistItemRepository
    const categoryRepository: CategoryRepository

    constructor (checklistItemRepository: ChecklistItemRepository, categoryRepository: CategoryRepository)
      ensures this.checklistItemRepository == checklistItemRepository
      ensures this.categoryRepository == categoryRepository
    {
      this.checklistItemRepository := checklistItemRepository;
      this.categoryRepository := categoryRepository;
    }

    ghost predicate Valid()
      reads checklistItemRepository, categoryRepository
    {
      checklistItemRepository.Valid() && categoryRepository.Valid()
    }

    /** The contents of both tables. */
    ghost function State(): Tables
      reads checklistItemRepository, categoryRepository
    {
      Tables(categoryRepository.rows, checklistItemRepository.rows)
    }

    /** addNewChecklistItem. `newGuid` stands for the random UUID, `today`
        for `LocalDate.now()`. */
    method AddNewChecklistItem(description: Option<string>, isCompleted: Option<bool>,
                               deadline: Option<Date>, guid: Option<string>,
                               newGuid: string, today: Date)
      returns (r: Result<ChecklistItemEntity>)
      requires Valid()
      requires newGuid !in checklistItemRepository.rows
      modifies checklistItemRepository
      ensures Valid()
      ensures (r, State()) ==
        Rules.AddNewChecklistItem(old(State()), description, isCompleted, deadline, guid, newGuid, today)
    {
      var invalid := Rules.ValidateChecklistItemData(description, isCompleted, deadline, guid);
      if invalid.Some? {
        return Err(invalid.value);
      }
      var category := categoryRepository.FindByGuid(guid);
      if category.None? {
        return Err(ResourceNotFound(Rules.CATEGORY_NOT_FOUND_ON_ADD));
      }
      var checklistItem := ChecklistItemEntity(newGuid, None, None, None, None, None);
      checklistItem := checklistItem.(description := description);
      checklistItem := checklistItem.(deadline := deadline);
      checklistItem := checklistItem.(isCompleted := isCompleted);
      checklistItem := checklistItem.(postedDate := Some(today));
      checklistItem := checklistItem.(category := Some(category.value.guid));
      checklistItemRepository.Save(checklistItem);
      r := Ok(checklistItem);
    }

    /** findAllChecklistItems. */
    method FindAllChecklistItems() returns (r: set<ChecklistItemEntity>)
      ensures r == Rules.FindAllChecklistItems(State())
    {
      r := checklistItemRepository.FindAll();
    }

    /** deleteChecklistItem. */
    method DeleteChecklistItem(guid: Option<string>) returns (r: Outcome)
      requires Valid()
      modifies checklistItemRepository
      ensures Valid()
      ensures (r, State()) == Rules.DeleteChecklistItem(old(State()), guid)
    {
      var invalid := Rules.ValidatingGuid(guid);
      if invalid.Some? {
        return Failure(invalid.value);
      }
      var retrieved := checklistItemRepository.FindByGuid(guid);
      if retrieved.None? {
        return Failure(ResourceNotFound(Rules.CHECKLIST_ITEM_NOT_FOUND));
      }
      checklistItemRepository.Delete(retrieved.value);
      r := Success;
    }

    /** updateChecklistItem, with the description block written twice as in
        the source. */
    method UpdateChecklistItem(guid: Option<string>, description: Option<string>,
                               isCompleted: Option<bool>, deadline: Option<Date>,
                               categoryGuid: Option<string>)
      returns (r: Result<ChecklistItemEntity>)
      requires Valid()
      modifies checklistItemRepository
      ensures Valid()
      ensures (r, State()) ==
        Rules.UpdateChecklistItem(old(State()), guid, description, isCompleted, deadline, categoryGuid)
    {
      var invalid := Rules.ValidatingGuid(guid);
      if invalid.Some? {
        return Err(invalid.value);
      }
      var found := checklistItemRepository.FindByGuid(guid);
      if found.None? {
        return Err(ResourceNotFound(Rules.CHECKLIST_ITEM_NOT_FOUND));
      }
      var retrieved := found.value;
      if HasText(description) {
        retrieved := retrieved.(description := description);
      }
      if HasText(description) {
        retrieved := retrieved.(description := description);
      }
      if isCompleted.Some? {
        retrieved := retrieved.(isCompleted := isCompleted);
      }
      if deadline.Some? {
        retrieved := retrieved.(deadline := deadline);
      }
      // as written: the category is resolved only when categoryGuid has NO text
      if !HasText(categoryGuid) {
        var category := categoryRepository.FindByGuid(categoryGuid);
        if category.None? {
          return Err(ResourceNotFound(Rules.CATEGORY_NOT_FOUND_ON_UPDATE));
        }
        retrieved := retrieved.(category := Some(category.value.guid));
      }
      checklistItemRepository.Save(retrieved);
      r := Ok(retrieved);
    }

    /** findChecklistItemByGuid. */
    method FindChecklistItemByGuid(guid: Option<string>) returns (r: Result<ChecklistItemEntity>)
      ensures r == Rules.FindChecklistItemByGuid(State(), guid)
    {
      var invalid := Rules.ValidatingGuid(guid);
      if invalid.Some? {
        return Err(invalid.value);
      }
      var found := checklistItemRepository.FindByGuid(guid);
      if found.None? {
        return Err(ResourceNotFound(Rules.CHECKLIST_ITEM_NOT_FOUND));
      }
      r := Ok(found.value);
    }
  }
}
