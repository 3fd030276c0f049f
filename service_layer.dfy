/** The service layer as one sequential state machine: any sequence of
    requests to the two services, applied to the two tables. */
module ServiceLayer {
  import opened Common
  import opened Text
  import opened Entities
  import opened Store
  import ItemRules = ChecklistItemRules
  import CategoryRules

  /** One call of a state-changing service method, with its arguments. */
  datatype Request =
    | AddNewCategory(name: Option<string>, newGuid: string)
    | UpdateCategory(guid: Option<string>, name: Option<string>)
    | DeleteCategory(guid: Option<string>)
    | AddNewChecklistItem(description: Option<string>, isCompleted: Option<bool>,
                          deadline: Option<Date>, categoryGuid: Option<string>,
                          newGuid: string, today: Date)
    | UpdateChecklistItem(guid: Option<string>, description: Option<string>,
                          isCompleted: Option<bool>, deadline: Option<Date>,
                          categoryGuid: Option<string>)
    | DeleteChecklistItem(guid: Option<string>)

  /** The tables after one request, whether it succeeds or fails. */
  function Step(t: Tables, req: Request): Tables {
    match req
    case AddNewCategory(name, newGuid) => CategoryRules.AddNewCategory(t, name, newGuid).1
    case UpdateCategory(guid, name) => CategoryRules.UpdateCategory(t, guid, name).1
    case DeleteCategory(guid) => CategoryRules.DeleteCategory(t, guid).1
    case AddNewChecklistItem(description, isCompleted, deadline, categoryGuid, newGuid, today) =>
      ItemRules.AddNewChecklistItem(t, description, isCompleted, deadline, categoryGuid, newGuid, today).1
    case UpdateChecklistItem(guid, description, isCompleted, deadline, categoryGuid) =>
      ItemRules.UpdateChecklistItem(t, guid, description, isCompleted, deadline, categoryGuid).1
    case DeleteChecklistItem(guid) => ItemRules.DeleteChecklistItem(t, guid).1
  }

  /** The tables after the requests, one after the other. */
  function Run(t: Tables, reqs: seq<Request>): Tables
    decreases |reqs|
  {
    if reqs == [] then t else Run(Step(t, reqs[0]), reqs[1..])
  }

  /** Every category created by the requests gets a guid with text. */
  ghost predicate NewCategoryGuidsHaveText(reqs: seq<Request>) {
    forall i :: 0 <= i < |reqs| && reqs[i].AddNewCategory? ==> HasText(Some(reqs[i].newGuid))
  }

  /** Referential integrity and guid keying hold after any sequence of
      requests: no item ever refers to a missing category. */
  lemma {:induction false} RunPreservesIntegrity(t: Tables, reqs: seq<Request>)
    requires WellKeyed(t) && Integrity(t)
    ensures WellKeyed(Run(t, reqs)) && Integrity(Run(t, reqs))
    decreases |reqs|
  {
    if reqs != [] {
      RunPreservesIntegrity(Step(t, reqs[0]), reqs[1..]);
    }
  }

  /** One request keeps the item table empty and every category guid textual. */
  lemma AsWrittenStepCreatesNoItem(t: Tables, req: Request)
    requires CategoryGuidsHaveText(t) && t.items == map[]
    requires req.AddNewCategory? ==> HasText(Some(req.newGuid))
    ensures CategoryGuidsHaveText(Step(t, req)) && Step(t, req).items == map[]
  {
    match req
    case AddNewChecklistItem(description, isCompleted, deadline, categoryGuid, newGuid, today) =>
      ItemRules.AsWrittenCreateFailsOnTextGuids(t, description, isCompleted, deadline, categoryGuid, newGuid, today);
    case _ =>
  }

  /** As written, when every new category guid has text (as UUIDs do), no
      sequence of requests ever stores a checklist item, starting from tables
      whose category guids have text and whose item table is empty. */
  lemma {:induction false} AsWrittenRunCreatesNoItem(t: Tables, reqs: seq<Request>)
    requires CategoryGuidsHaveText(t) && t.items == map[]
    requires NewCategoryGuidsHaveText(reqs)
    ensures CategoryGuidsHaveText(Run(t, reqs)) && Run(t, reqs).items == map[]
    decreases |reqs|
  {
    if reqs != [] {
      assert reqs[0].AddNewCategory? ==> HasText(Some(reqs[0].newGuid));
      AsWrittenStepCreatesNoItem(t, reqs[0]);
      assert NewCategoryGuidsHaveText(reqs[1..]) by {
        forall i | 0 <= i < |reqs[1..]| && reqs[1..][i].AddNewCategory?
          ensures HasText(Some(reqs[1..][i].newGuid))
        {
          assert reqs[1..][i] == reqs[i + 1];
        }
      }
      AsWrittenRunCreatesNoItem(Step(t, reqs[0]), reqs[1..]);
    }
  }

  /** The same from a freshly started application. */
  lemma AsWrittenNoItemFromEmpty(reqs: seq<Request>)
    requires NewCategoryGuidsHaveText(reqs)
    ensures Run(Empty, reqs).items == map[]
  {
    AsWrittenRunCreatesNoItem(Empty, reqs);
  }
}
