/** The two persisted records. The storage-assigned numeric id and the JPA
    mapping are not modelled; a row is identified by its key in its table. */
module Entities {
  import opened Common

  /** A calendar date. The service works with `LocalDate`; the entity declares
      `LocalTime`; one abstract day number stands for both. */
  datatype Date = Date(epochDay: int)

  /** CategoryEntity: the public guid and the (nullable) name. The back-list
      of items is derived from the item table, see `Store.FindByCategoryGuid`. */
  datatype CategoryEntity = CategoryEntity(guid: string, name: Option<string>)

  /** ChecklistItemEntity. `category` is the key of the category row the item
      refers to (`None` for a null category), not a copy of that category. */
  datatype ChecklistItemEntity = ChecklistItemEntity(
    guid: string,
    isCompleted: Option<bool>,
    description: Option<string>,
    deadline: Option<Date>,
    postedDate: Option<Date>,
    category: Option<string>)
}
