/** CategoryService over the two repositories. Each method takes the same
    steps as the Java method and is proved equal to the matching function of
    CategoryRules. */
module CategoryService {
  import opened Common
  import opened Text
  import opened Entities
  import opened Store
  import opened Repositories
  import Rules = CategoryRules

  class CategoryService {
    const categoryRepository: CategoryRepository
    const checklistItemRepository: ChecklistItemRepository

    constructor (categoryRepository: CategoryRepository, checklistItemRepository: ChecklistItemRepository)
      ensures this.categoryRepository == categoryRepository
      ensures this.checklistItemRepository == checklistItemRepository
    {
      this.categoryRepository := categoryRepository;
      this.checklistItemRepository := checklistItemRepository;
    }

    ghost predicate Valid()
      reads categoryRepository, checklistItemRepository
    {
      categoryRepository.Valid() && checklistItemRepository.Valid()
    }

    /** The contents of both tables. */
    ghost function State(): Tables
      reads categoryRepository, checklistItemRepository
    {
      Tables(categoryRepository.rows, checklistItemRepository.rows)
    }

    /** addNewCategory. `newGuid` stands for the random UUID. */
    method AddNewCategory(name: Option<string>, newGuid: string) returns (r: Result<CategoryEntity>)
      requires Valid()
      requires newGuid !in categoryRepository.rows
      modifies categoryRepository
      ensures Valid()
      ensures (r, State()) == Rules.AddNewCategory(old(State()), name, newGuid)
    {
      if !HasText(name) {
        return Err(IllegalArgument(Rules.NAME_REQUIRED));
      }
      var newCategory := CategoryEntity(newGuid, None);
      newCategory := newCategory.(name := name);
      categoryRepository.Save(newCategory);
      r := Ok(newCategory);
    }

    /** updateCategory. */
    method UpdateCategory(guid: Option<string>, name: Option<string>) returns (r: Result<CategoryEntity>)
      requires Valid()
      modifies categoryRepository
      ensures Valid()
      ensures (r, State()) == Rules.UpdateCategory(old(State()), guid, name)
    {
      // as written: rejects a name that HAS text
      if guid.None? || HasText(name) {
        return Err(IllegalArgument(Rules.INVALID_UPDATE));
      }
      var found := categoryRepository.FindByGuid(guid);
      if found.None? {
        return Err(ResourceNotFound(Rules.CATEGORY_NOT_FOUND));
      }
      var retrieved := found.value.(name := name);
      categoryRepository.Save(retrieved);
      r := Ok(retrieved);
    }

    /** deleteCategory, with the in-use check through `findByCategoryGuid`. */
    method DeleteCategory(guid: Option<string>) returns (r: Outcome)
      requires Valid()
      modifies categoryRepository
      ensures Valid()
      ensures (r, State()) == Rules.DeleteCategory(old(State()), guid)
    {
      // as written: rejects a guid that HAS text
      if HasText(guid) {
        return Failure(IllegalArgument(Rules.GUID_REQUIRED));
      }
      var retrieved := categoryRepository.FindByGuid(guid);
      if retrieved.None? {
        return Failure(ResourceNotFound(Rules.CATEGORY_NOT_FOUND));
      }
      var checklistItems := checklistItemRepository.FindByCategoryGuid(guid.value);
      if checklistItems != {} {
        return Failure(CategoryServiceError(Rules.CATEGORY_IN_USE));
      }
      categoryRepository.Delete(retrieved.value);
      r := Success;
    }

    /** findAllCategories. */
    method FindAllCategories() returns (r: set<CategoryEntity>)
      ensures r == Rules.FindAllCategories(State())
    {
      r := categoryRepository.FindAll();
    }

    /** findCategoryByGuid. */
    method FindCategoryByGuid(guid: Option<string>) returns (r: Result<CategoryEntity>)
      ensures r == Rules.FindCategoryByGuid(State(), guid)
    {
      // as written: rejects a guid that HAS text
      if HasText(guid) {
        return Err(IllegalArgument(Rules.GUID_REQUIRED));
      }
      var found := categoryRepository.FindByGuid(guid);
      if found.None? {
        return Err(ResourceNotFound(Rules.CATEGORY_NOT_FOUND));
      }
      r := Ok(found.value);
    }
  }
}
