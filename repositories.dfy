/** In-memory stand-ins for the two Spring Data repositories: one table each,
    keyed by guid. `save` and `delete` are the only writes. */
module Repositories {
  import opened Common
  import opened Entities
  import opened Store

  /** CategoryRepository. */
  class CategoryRepository {
    var rows: map<string, CategoryEntity>

    ghost predicate Valid()
      reads this
    {
      CategoriesKeyed(rows)
    }

    constructor ()
      ensures Valid() && rows == map[]
    {
      rows := map[];
    }

    function FindByGuid(guid: Option<string>): Option<CategoryEntity>
      reads this
    {
      Lookup(rows, guid)
    }

    function FindAll(): set<CategoryEntity>
      reads this
    {
      rows.Values
    }

    /** Inserts a new row or overwrites the row of the same guid. */
    method Save(e: CategoryEntity)
      requires Valid()
      modifies this
      ensures Valid()
      ensures rows == old(rows)[e.guid := e]
    {
      rows := rows[e.guid := e];
    }

    method Delete(e: CategoryEntity)
      requires Valid()
      modifies this
      ensures Valid()
      ensures rows == old(rows) - {e.guid}
    {
      rows := rows - {e.guid};
    }
  }

  /** ChecklistItemRepository. */
  class ChecklistItemRepository {
    var rows: map<string, ChecklistItemEntity>

    ghost predicate Valid()
      reads this
    {
      ItemsKeyed(rows)
    }

    constructor ()
      ensures Valid() && rows == map[]
    {
      rows := map[];
    }

    function FindByGuid(guid: Option<string>): Option<ChecklistItemEntity>
      reads this
    {
      Lookup(rows, guid)
    }

    function FindAll(): set<ChecklistItemEntity>
      reads this
    {
      rows.Values
    }

    function FindByCategoryGuid(guid: string): set<ChecklistItemEntity>
      reads this
    {
      Store.FindByCategoryGuid(rows, guid)
    }

    /** Inserts a new row or overwrites the row of the same guid. */
    method Save(e: ChecklistItemEntity)
      requires Valid()
      modifies this
      ensures Valid()
      ensures rows == old(rows)[e.guid := e]
    {
      rows := rows[e.guid := e];
    }

    method Delete(e: ChecklistItemEntity)
      requires Valid()
      modifies this
      ensures Valid()
      ensures rows == old(rows) - {e.guid}
    {
      rows := rows - {e.guid};
    }
  }
}
