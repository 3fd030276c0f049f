# Checklist API service layer in Dafny

This project models the service layer of a small Spring checklist backend. The backend keeps two
tables: categories, and checklist items that each refer to one category. Every row has a public
guid. `ChecklistItemService` creates, finds, updates (as a partial patch) and deletes items.
`CategoryService` creates, renames, finds and deletes categories. It refuses to delete a category
that an item still refers to. The two `toDTO` mappers turn stored entities into the records the
HTTP layer sends.

## How the model is built

- `Common`: Java `null` is `Option`. Exceptions are the values `IllegalArgument`,
  `ResourceNotFound` and `CategoryServiceError`, each with its exact message string.
- `Text`: `HasText` is Spring's `StringUtils.hasText`: not null, and at least one character
  that is not Java whitespace (`Character.isWhitespace`).
- `Entities`: `CategoryEntity` and `ChecklistItemEntity`. An item stores the key of its
  category row, not a copy of the category. One `Date` type stands for both `LocalDate` and
  `LocalTime`.
- `Store`: the two tables as one value (`Tables`). It also holds the `findByGuid` lookup, the
  `findByCategoryGuid` query and two invariants: rows are stored under their own guid
  (`WellKeyed`), and every item refers to an existing category (`Integrity`).
- `Repositories`: two classes, each holding one table in a `map` field. `Save` and `Delete`
  are the only writes.
- `ChecklistItemRules`, `CategoryRules`: each service operation as a function from the tables
  before the call to the outcome and the tables after it. Most properties are `ensures` clauses
  of these functions: error order, exact messages, "nothing changes on failure", exactly which row
  changes, and that both invariants are kept.
- `ChecklistItemService`, `CategoryService`: classes holding the two repositories. Each method
  takes the Java method's steps in its order and is proved equal to its rules function. These
  steps are the checks, the lookups, the setters on the retrieved copy and the single
  `save`/`delete`. `updateChecklistItem` sets the description twice, as the Java does.
- `Dto`: the two records and their mappers. Because an item stores a category key rather than
  a reference, `ChecklistItemToDTO` resolves the key against the category table. A key missing
  from the table gives a null category record. The Java reference cannot dangle, so this
  branch has no Java counterpart, and under `Integrity` it is never taken
  (`StoredItemShowsItsCategory`).
- `ServiceLayer`: any sequence of state-changing requests, run against the tables.

The random UUID is a `newGuid` argument, and the methods require it not to be used yet.
`LocalDate.now()` is a `today` argument. `findByGuid(null)` finds nothing, because every
stored row has a guid.

### Guards as written

Several guards have the opposite polarity to their own messages and to the unit tests. The
model keeps the code as written:

- `ChecklistItemService.java:98` and `:107` reject a description or category guid that HAS
  text.
- `ChecklistItemService.java:80` looks the category up only when the category guid has NO text.
- `CategoryService.java:42` rejects a name that HAS text.
- `CategoryService.java:54` and `:72` reject a guid that HAS text.

The tests disagree with these guards. For example, `ChecklistItemServiceTest.java:64-77` passes
a null description and expects the description error. `CategoryServiceTest.java:96-111` expects
the reverse of the update guard. The rules modules cite the other tests in comments.

Proved consequences of the guards as written:

- Once every category guid has text, as UUIDs do, creating an item always fails.
- Under the same condition, deleting a category always fails.
- A created category can never be fetched by its guid. This holds for any guid with text,
  whatever the tables hold, because find rejects such a guid before the lookup.
- Starting from empty tables, when every new category guid has text, as UUIDs do, no sequence
  of requests ever stores a checklist item.

Two further differences:

- `CategoryService.java:62` throws `CategoryServiceException`, while
  `CategoryServiceTest.java:146` expects `ValidationException`. The model follows the code.
- Updating an item does not re-resolve its category on every call. It does so only for a
  category guid without text (`ChecklistItemService.java:80`). With a textual guid the
  existing link is kept.

## Model

| member | source | states |
|---|---|---|
| ChecklistItemRules.ValidateChecklistItemData | src/main/java/com/learning/springboot/checklistapi/service/ChecklistItemService.java:96-110 | Input passes exactly when the description has no text, isCompleted and the deadline are non-null, and the category guid has no text. Otherwise the error is an IllegalArgument whose message is that of the first check that fires, in the order description, flag, deadline, category guid. |
| ChecklistItemRules.ValidatingGuid | src/main/java/com/learning/springboot/checklistapi/service/ChecklistItemService.java:111-115 | Passes exactly when the guid has text. Otherwise IllegalArgument "ChecklistItem guid cannot be empty or null". |
| ChecklistItemRules.AddNewChecklistItem | src/main/java/com/learning/springboot/checklistapi/service/ChecklistItemService.java:29-46 | A failed check decides the error before any lookup. An unknown category gives NotFound "Category not found" (no period). Any failure leaves both tables unchanged. Success adds exactly one item under the new guid with the given fields, postedDate = today and a link to an existing category. Keying and integrity are kept. |
| ChecklistItemRules.FindAllChecklistItems | src/main/java/com/learning/springboot/checklistapi/service/ChecklistItemService.java:48-50 | Returns every stored item and nothing else. Each returned item is the row under its own guid. |
| ChecklistItemRules.FindChecklistItemByGuid | src/main/java/com/learning/springboot/checklistapi/service/ChecklistItemService.java:90-94 | A guid without text gives IllegalArgument. An unknown guid gives NotFound "ChecklistItem not found.". Otherwise the result is the stored item. |
| ChecklistItemRules.DeleteChecklistItem | src/main/java/com/learning/springboot/checklistapi/service/ChecklistItemService.java:52-59 | Same errors as find, with nothing changed. Success removes exactly that guid from the items and keeps the categories and both invariants. |
| ChecklistItemRules.UpdateChecklistItem | src/main/java/com/learning/springboot/checklistapi/service/ChecklistItemService.java:61-88 | Guid errors come first. Description, isCompleted and deadline are replaced only when supplied. guid and postedDate never change. A category guid with text keeps the link. One without text must resolve, else NotFound "Category not found." with nothing saved. Only that row changes, and integrity is kept. |
| ChecklistItemRules.CreatedItemIsFound | src/main/java/com/learning/springboot/checklistapi/service/ChecklistItemService.java:36-45 | A created item is found again under its guid, field for field. |
| ChecklistItemRules.AsWrittenCreateFailsOnTextGuids | src/main/java/com/learning/springboot/checklistapi/service/ChecklistItemService.java:31-34 | When every category guid has text, create fails on every input. |
| ChecklistItemService.ChecklistItemService.AddNewChecklistItem | src/main/java/com/learning/springboot/checklistapi/service/ChecklistItemService.java:29-46 | Builds the entity by setters and saves it. Returned value and new tables equal ChecklistItemRules.AddNewChecklistItem. |
| ChecklistItemService.ChecklistItemService.FindAllChecklistItems | src/main/java/com/learning/springboot/checklistapi/service/ChecklistItemService.java:48-50 | Result equals ChecklistItemRules.FindAllChecklistItems. Changes nothing. |
| ChecklistItemService.ChecklistItemService.DeleteChecklistItem | src/main/java/com/learning/springboot/checklistapi/service/ChecklistItemService.java:52-59 | Outcome and new tables equal ChecklistItemRules.DeleteChecklistItem. |
| ChecklistItemService.ChecklistItemService.UpdateChecklistItem | src/main/java/com/learning/springboot/checklistapi/service/ChecklistItemService.java:61-88 | Setters on the retrieved copy, including the duplicated description block, then one save. Result and new tables equal ChecklistItemRules.UpdateChecklistItem, so the duplicate has the effect of one block. |
| ChecklistItemService.ChecklistItemService.FindChecklistItemByGuid | src/main/java/com/learning/springboot/checklistapi/service/ChecklistItemService.java:90-94 | Result equals ChecklistItemRules.FindChecklistItemByGuid. Changes nothing. |
| CategoryRules.AddNewCategory | src/main/java/com/learning/springboot/checklistapi/service/CategoryService.java:29-39 | A name without text gives IllegalArgument "Category name cannot be empty or null" and no change. Otherwise exactly one category (new guid, given name) is added, items are untouched, and both invariants are kept. |
| CategoryRules.UpdateCategory | src/main/java/com/learning/springboot/checklistapi/service/CategoryService.java:41-51 | IllegalArgument "Invalid parameters provided to update a category" exactly when the guid is null or the name has text. Then an unknown guid gives NotFound "Category not found.". On success only that category's name changes, its guid is kept, and the key set is unchanged. |
| CategoryRules.DeleteCategory | src/main/java/com/learning/springboot/checklistapi/service/CategoryService.java:53-65 | A guid with text gives IllegalArgument. An unknown guid gives NotFound. A category an item refers to gives the in-use error. Each failure changes nothing. Success happens exactly when none of these applies, and removes only that category. Integrity is kept. |
| CategoryRules.FindAllCategories | src/main/java/com/learning/springboot/checklistapi/service/CategoryService.java:67-69 | Returns every stored category and nothing else. |
| CategoryRules.FindCategoryByGuid | src/main/java/com/learning/springboot/checklistapi/service/CategoryService.java:71-78 | A guid with text gives IllegalArgument. An unknown guid gives NotFound "Category not found.". Otherwise the result is the stored category. |
| CategoryRules.AsWrittenCreatedCategoryIsNotFound | src/main/java/com/learning/springboot/checklistapi/service/CategoryService.java:71-74 | A category created under a guid with text cannot be fetched by that guid. |
| CategoryRules.AsWrittenDeleteFailsOnTextGuids | src/main/java/com/learning/springboot/checklistapi/service/CategoryService.java:53-58 | When every category guid has text, delete fails and changes nothing. |
| CategoryService.CategoryService.AddNewCategory | src/main/java/com/learning/springboot/checklistapi/service/CategoryService.java:29-39 | Result and new tables equal CategoryRules.AddNewCategory. |
| CategoryService.CategoryService.UpdateCategory | src/main/java/com/learning/springboot/checklistapi/service/CategoryService.java:41-51 | setName on the retrieved copy, then save. Result and new tables equal CategoryRules.UpdateCategory. |
| CategoryService.CategoryService.DeleteCategory | src/main/java/com/learning/springboot/checklistapi/service/CategoryService.java:53-65 | Queries the items that refer to the category before deleting. Outcome and new tables equal CategoryRules.DeleteCategory. |
| CategoryService.CategoryService.FindAllCategories | src/main/java/com/learning/springboot/checklistapi/service/CategoryService.java:67-69 | Result equals CategoryRules.FindAllCategories. Changes nothing. |
| CategoryService.CategoryService.FindCategoryByGuid | src/main/java/com/learning/springboot/checklistapi/service/CategoryService.java:71-78 | Result equals CategoryRules.FindCategoryByGuid. Changes nothing. |
| Dto.CategoryToDTO | src/main/java/com/learning/springboot/checklistapi/dto/CategoryDTO.java:14-19 | The record's guid and name are the entity's. The record has no id or item-list field. |
| Dto.ChecklistItemToDTO | src/main/java/com/learning/springboot/checklistapi/dto/ChecklistItemDTO.java:24-37 | guid, description, isCompleted, deadline and postedDate are copied verbatim. The category record is null exactly when the item has no resolvable category. Otherwise it equals CategoryToDTO of that category. |
| Dto.CategoryToDTOIdentifiesStoredRow | src/main/java/com/learning/springboot/checklistapi/dto/CategoryDTO.java:9-19 | The record drops the id and the item list but keeps the guid, so two stored categories (rows keyed by guid) have the same record exactly when they are the same row. |
| Dto.StoredItemShowsItsCategory | src/main/java/com/learning/springboot/checklistapi/dto/ChecklistItemDTO.java:31-35 | Under integrity, every stored item maps to a record that carries its category's record. |
| Store.Lookup | src/main/java/com/learning/springboot/checklistapi/repository/CategoryRepository.java:12 | findByGuid finds a row exactly when the guid is non-null and a key, and then returns that row. |
| Store.FindByCategoryGuid | src/main/java/com/learning/springboot/checklistapi/repository/ChecklistItemRepository.java:17 | Returns exactly the items referring to the guid. It is empty exactly when no item refers to it. |
| ServiceLayer.RunPreservesIntegrity | src/main/java/com/learning/springboot/checklistapi/service/CategoryService.java:60-64 | After any sequence of requests, every item still refers to an existing category and rows stay keyed by guid. |
| ServiceLayer.AsWrittenStepCreatesNoItem | src/main/java/com/learning/springboot/checklistapi/service/ChecklistItemService.java:96-110 | One request on tables with textual category guids and no items keeps both properties. |
| ServiceLayer.AsWrittenRunCreatesNoItem | src/main/java/com/learning/springboot/checklistapi/service/ChecklistItemService.java:29-46 | Any sequence of requests with textual new guids keeps the item table empty. |
| ServiceLayer.AsWrittenNoItemFromEmpty | src/main/java/com/learning/springboot/checklistapi/service/ChecklistItemService.java:107-109 | From empty tables, no sequence of requests with textual new guids ever stores a checklist item. |

## Left out

- updateIsCompletedStatus: the controller (`ChecklistItemController.java:90`) and a test call
  it, but `ChecklistItemService.java` does not define it, so there is no code to model.
- Controllers: HTTP routing, JSON binding, status codes and their own guid checks are transport.
- Repositories: Spring Data queries are replaced by maps. `findByDescriptionAndIsCompleted` and
  `findByName` are not used by the services.
- JPA: generated numeric ids, the unique name column (the service never checks it), cascades,
  and the dirty-checking that could flush an unsaved change. A retrieved entity is a local copy
  until it is saved.
- Randomness and time: UUIDs and `LocalDate.now()` are arguments. Only UUID freshness is
  assumed, not the UUID format.
- Logging: the `log.debug` calls. `ChecklistItemService.java:85` builds its message with
  `toString()` on the retrieved item whatever the log level. Both entities use Lombok `@Data`,
  so that `toString` follows the category's item list back to the item. It can throw a
  lazy-loading failure or overflow the stack. The model drops this possible exception. As
  written, the service never stores an item itself, so that line is reached only for items
  stored by other means.
- The exception classes: only their kind and message are modelled.
- Concurrency: a request racing between a lookup and a save is not modelled; the model is
  sequential.
- ChecklistItemService.ChecklistItemService.FindAllChecklistItems: returns a set, so the
  list order of `findAll` is not modelled. The order is storage order and unspecified.
- CategoryService.CategoryService.FindAllCategories: returns a set, so the list order of
  `findAll` is not modelled.
