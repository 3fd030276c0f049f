/** The records the HTTP layer sends: CategoryDTO and ChecklistItemDTO, with
    their `toDTO` mappers. Neither record has a field for the internal id, and
    the category record has none for the category's items. */
module Dto {
  import opened Common
  import opened Entities
  import opened Store

  datatype CategoryDTO = CategoryDTO(guid: string, name: Option<string>)

  datatype ChecklistItemDTO = ChecklistItemDTO(
    guid: string,
    description: Option<string>,
    isCompleted: Option<bool>,
    deadline: Option<Date>,
    postedDate: Option<Date>,
    category: Option<CategoryDTO>)

  /** CategoryDTO.toDTO: the guid and the name of the entity. */
  function CategoryToDTO(e: CategoryEntity): (d: CategoryDTO)
    ensures d.guid == e.guid
    ensures d.name == e.name
  {
    CategoryDTO(e.guid, e.name)
  }

  /** ChecklistItemDTO.toDTO. `categories` is what `getCategory()` resolves the
      item's category against; a null or unresolved category gives a null
      category record, otherwise the record is built inline from the
      category's guid and name. */
  function ChecklistItemToDTO(e: ChecklistItemEntity, categories: map<string, CategoryEntity>): (d: ChecklistItemDTO)
    ensures d.guid == e.guid
    ensures d.description == e.description
    ensures d.isCompleted == e.isCompleted
    ensures d.deadline == e.deadline
    ensures d.postedDate == e.postedDate
    ensures d.category.None? <==> e.category.None? || e.category.value !in categories
    ensures d.category.Some? ==> d.category == Some(CategoryToDTO(categories[e.category.value]))
  {
    var category := Lookup(categories, e.category);
    ChecklistItemDTO(
      e.guid, e.description, e.isCompleted, e.deadline, e.postedDate,
      if category.Some? then Some(CategoryDTO(category.value.guid, category.value.name)) else None)
  }

  /** The record drops the entity's id and item list, but it keeps the guid,
      and a stored category sits under its guid: two stored categories are
      shown with the same record exactly when they are the same row. */
  lemma CategoryToDTOIdentifiesStoredRow(t: Tables, k1: string, k2: string)
    requires WellKeyed(t)
    requires k1 in t.categories && k2 in t.categories
    ensures CategoryToDTO(t.categories[k1]) == CategoryToDTO(t.categories[k2]) <==> k1 == k2
  {
  }

  /** Under referential integrity no stored item is shown with a null
      category: its record carries the record of the category it refers to. */
  lemma StoredItemShowsItsCategory(t: Tables, k: string)
    requires Integrity(t)
    requires k in t.items
    ensures ChecklistItemToDTO(t.items[k], t.categories).category
         == Some(CategoryToDTO(t.categories[t.items[k].category.value]))
  {
  }
}
