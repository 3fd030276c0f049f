/** The two tables as one value, the repository queries the services use, and
    the invariants the service layer is meant to keep. */
module Store {
  import opened Common
  import opened Text
  import opened Entities

  /** The category table and the item table, each keyed by guid. */
  datatype Tables = Tables(
    categories: map<string, CategoryEntity>,
    items: map<string, ChecklistItemEntity>)

  /** The freshly started application: both tables empty. */
  const Empty: Tables := Tables(map[], map[])

  /** `findByGuid`: the row stored under the guid. A null guid finds nothing,
      since every stored row has a guid. */
  function Lookup<E>(rows: map<string, E>, guid: Option<string>): (r: Option<E>)
    ensures r.Some? <==> guid.Some? && guid.value in rows
    ensures r.Some? ==> r.value == rows[guid.value]
  {
    if guid.Some? && guid.value in rows then Some(rows[guid.value]) else None
  }

  /** Every category row is stored under its own guid. */
  ghost predicate CategoriesKeyed(rows: map<string, CategoryEntity>) {
    forall k :: k in rows ==> rows[k].guid == k
  }

  /** Every item row is stored under its own guid. */
  ghost predicate ItemsKeyed(rows: map<string, ChecklistItemEntity>) {
    forall k :: k in rows ==> rows[k].guid == k
  }

  /** Both tables are keyed by the guid column. */
  ghost predicate WellKeyed(t: Tables) {
    CategoriesKeyed(t.categories) && ItemsKeyed(t.items)
  }

  /** Referential integrity: every item refers to a category row that exists. */
  ghost predicate Integrity(t: Tables) {
    forall k :: k in t.items ==>
      t.items[k].category.Some? && t.items[k].category.value in t.categories
  }

  /** Every category is stored under a guid that has text, as the random UUIDs
      the service assigns do. */
  ghost predicate CategoryGuidsHaveText(t: Tables) {
    forall k :: k in t.categories ==> HasText(Some(k))
  }

  /** Some item refers to the category stored under `guid`. */
  ghost predicate Referenced(items: map<string, ChecklistItemEntity>, guid: string) {
    exists k :: k in items && items[k].category == Some(guid)
  }

  /** `findByCategoryGuid`: the items whose category is the one under `guid`. */
  function FindByCategoryGuid(items: map<string, ChecklistItemEntity>, guid: string): (r: set<ChecklistItemEntity>)
    ensures forall k :: k in items && items[k].category == Some(guid) ==> items[k] in r
    ensures forall e :: e in r ==> e.category == Some(guid) && e in items.Values
    ensures r == {} <==> !Referenced(items, guid)
  {
    set k | k in items && items[k].category == Some(guid) :: items[k]
  }
}
