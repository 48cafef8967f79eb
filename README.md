# Dashboard food list — a Dafny model

This project models the state bookkeeping of the `Dashboard` page of a small
food-menu admin application. The page keeps a list of food items, an optional
item being edited, and two dialog flags (create and edit). It talks to a REST
resource `/foods` through four calls: list, create, update and delete. After
each call is answered, it updates its local state. Everything else on the page
is rendering.

The model has four modules:

- `Wrappers` holds `Option`. `None` stands for a failed request, and also for an
  absent edit target or an absent draft property.
- `Food` holds the `FoodItem` record and `Draft`, which is an object whose
  properties may each be absent. It also holds the two payloads the page builds
  with object spread: `AddPayload` is `{ ...food, available: true }` and `Merge`
  is `{ ...editingFood, ...food }`.
- `FoodList` holds the three list updates as recursive functions, with lemmas:
  append (array spread), replace by id (`map`) and remove by id (`filter`).
- `Dashboard` holds the page itself:
  - the state as a value (`State`) with one transition function per handler;
  - the request each handler sends;
  - the rendered edit dialog;
  - runs of several actions;
  - the class `DashboardComponent`, which has the four state fields. Each handler
    is a method that returns the request it sends and is proved to move the
    fields exactly as the matching transition function says.

The page runs requests one after another. Each handler method gets the server's
answer as a parameter: `Option<seq<FoodItem>>` for the listing,
`Option<FoodItem>` for create and update, and `Option<()>` for delete, whose
body is ignored.

The handlers declare their parameter as a full `FoodItem`. The dialogs can hand
over objects that lack some properties, and object spread copies only the
properties an object has. So the handlers take a `Draft`, and `ToDraft` embeds a
complete record into it. `price` is a JavaScript number that is never computed
with, so it is modelled as `real` and compared only for equality.

## Model

| member | source | states |
|---|---|---|
| Food.ToDraft | src/pages/Dashboard/index.tsx:29 | a complete record used as a draft supplies every property |
| Food.AddPayload | src/pages/Dashboard/index.tsx:31-34 | the create payload has `available` = true and every other property exactly as in the draft |
| Food.AddPayloadIgnoresAvailable | src/pages/Dashboard/index.tsx:31-34 | the create payload does not depend on the draft's own `available`; building it twice changes nothing |
| Food.Merge | src/pages/Dashboard/index.tsx:43-46 | each property of the update payload comes from the draft when the draft has it, and from the edit target otherwise |
| Food.MergeEmpty | src/pages/Dashboard/index.tsx:43-46 | an empty draft sends the edit target unchanged |
| Food.MergeFull | src/pages/Dashboard/index.tsx:39-46 | a draft that is a complete record replaces the edit target entirely, its `id` included |
| Food.MergeIdempotent | src/pages/Dashboard/index.tsx:43-46 | spreading the same draft a second time changes nothing |
| Food.MergeOverride | src/pages/Dashboard/index.tsx:43-46 | two successive spreads equal one spread of the two drafts combined, the later one winning |
| FoodList.Append | src/pages/Dashboard/index.tsx:35 | the list grows by exactly one, the old entries are an unchanged prefix, and the last entry is the created item |
| FoodList.AppendFresh | src/pages/Dashboard/index.tsx:35 | if the created item's id is not yet listed, ids stay unique and the item is the only entry with its id |
| FoodList.ReplaceById | src/pages/Dashboard/index.tsx:48-50 | the length is kept; at every index, an entry with the answer's id becomes the answer and any other entry stays as it was |
| FoodList.ReplaceKeepsIds | src/pages/Dashboard/index.tsx:48-50 | replacing keeps the id at every index, so unique ids stay unique |
| FoodList.ReplaceUnique | src/pages/Dashboard/index.tsx:48-50 | with unique ids, exactly the one entry with the answer's id is replaced |
| FoodList.ReplaceAbsent | src/pages/Dashboard/index.tsx:48-50 | an answer whose id is not listed leaves the list unchanged |
| FoodList.ReplaceIdempotent | src/pages/Dashboard/index.tsx:48-50 | applying the same updated item twice equals applying it once |
| FoodList.RemoveById | src/pages/Dashboard/index.tsx:58 | the length drops by the number of entries with the id, and no remaining entry has it |
| FoodList.RemoveConcat | src/pages/Dashboard/index.tsx:58 | deletion distributes over concatenation, so it acts on each entry on its own |
| FoodList.RemoveAbsent | src/pages/Dashboard/index.tsx:58 | deleting an id that is not listed leaves the list unchanged |
| FoodList.RemoveIsSubsequence | src/pages/Dashboard/index.tsx:58 | the remaining entries keep their original order (the result is a subsequence) |
| FoodList.RemoveMultiset | src/pages/Dashboard/index.tsx:58 | every entry with another id keeps its number of copies; entries with the id keep none |
| FoodList.RemoveMembers | src/pages/Dashboard/index.tsx:58 | an item remains if and only if it was listed and its id differs |
| FoodList.RemoveUnique | src/pages/Dashboard/index.tsx:58 | with unique ids, deleting a listed id removes exactly that one entry, so the length drops by one |
| FoodList.RemoveIdempotent | src/pages/Dashboard/index.tsx:58 | deleting the same id twice equals deleting it once |
| FoodList.RemoveKeepsUniqueIds | src/pages/Dashboard/index.tsx:58 | deletion keeps ids unique |
| FoodList.CountIdUnique | src/pages/Dashboard/index.tsx:58 | with unique ids, an id occurs once if listed and not at all otherwise |
| Dashboard.OnLoad | src/pages/Dashboard/index.tsx:25-27 | a successful listing replaces the list wholesale, a failed one keeps it; nothing else changes |
| Dashboard.OnAddFood | src/pages/Dashboard/index.tsx:35-36 | a successful create appends the answer after all old entries; a failure leaves the state unchanged; the edit target and dialogs stay as they were |
| Dashboard.UpdateRequest | src/pages/Dashboard/index.tsx:40-46 | no request is sent without an edit target; otherwise a PUT is sent to the target's id, carrying the target overlaid with the draft |
| Dashboard.OnUpdateFood | src/pages/Dashboard/index.tsx:40-53 | without an edit target, or on failure, the state is unchanged; on success the length is kept and only entries with the answer's id become the answer |
| Dashboard.OnDeleteFood | src/pages/Dashboard/index.tsx:56-61 | on success, exactly the entries with another id remain, in order, and the length drops by the number removed; on failure the state is unchanged |
| Dashboard.OnToggleModal | src/pages/Dashboard/index.tsx:64-66 | the create dialog's flag flips and nothing else changes |
| Dashboard.OnToggleEditModal | src/pages/Dashboard/index.tsx:68-70 | the edit dialog's flag flips and nothing else changes |
| Dashboard.OnEditFood | src/pages/Dashboard/index.tsx:72-75 | the item becomes the edit target and the edit dialog opens; the list and the create flag stay as they were |
| Dashboard.EditModal | src/pages/Dashboard/index.tsx:85-92 | the edit dialog is rendered exactly when there is an edit target, and is then given that target, with the edit flag as its open state |
| Dashboard.ToggleTwice | src/pages/Dashboard/index.tsx:64-70 | toggling either dialog twice restores the state |
| Dashboard.EditFoodOpensDialog | src/pages/Dashboard/index.tsx:72-92 | after an item is selected for editing, the edit dialog is rendered open on that item; on first render it is absent |
| Dashboard.UpdateTargetsSelectedFood | src/pages/Dashboard/index.tsx:39-46 | after an item is selected, the update is sent to that item's id and carries the item overlaid with the draft |
| Dashboard.UpdateReplacesOneEntry | src/pages/Dashboard/index.tsx:47-51 | with unique ids, a successful update replaces exactly the one matching entry |
| Dashboard.DeleteRemovesOneEntry | src/pages/Dashboard/index.tsx:56-61 | with unique ids, a successful delete of a listed id removes exactly that entry, so the length drops by one |
| Dashboard.StepKeepsUniqueIds | src/pages/Dashboard/index.tsx:25-75 | every handler keeps ids unique when the server's listing is unique and a created item's id is fresh |
| Dashboard.RunKeepsUniqueIds | src/pages/Dashboard/index.tsx:25-75 | any sequence of handlers keeps ids unique under the same server assumption |
| Dashboard.RunKeepsEditTarget | src/pages/Dashboard/index.tsx:21-75 | no handler clears the edit target, so once the edit dialog is rendered it stays rendered |
| Dashboard.RequestsKeepDialogs | src/pages/Dashboard/index.tsx:25-61 | the four request handlers never change the edit target or either dialog flag |
| Dashboard.DashboardComponent.constructor | src/pages/Dashboard/index.tsx:20-23 | the first render has an empty list, no edit target and both dialogs closed |
| Dashboard.DashboardComponent.Load | src/pages/Dashboard/index.tsx:25-27 | sends `GET /foods` and moves the state as `OnLoad` says |
| Dashboard.DashboardComponent.HandleAddFood | src/pages/Dashboard/index.tsx:29-37 | sends `POST /foods` with the create payload and moves the state as `OnAddFood` says |
| Dashboard.DashboardComponent.HandleUpdateFood | src/pages/Dashboard/index.tsx:39-54 | sends what `UpdateRequest` says (nothing without an edit target) and moves the state as `OnUpdateFood` says |
| Dashboard.DashboardComponent.HandleDeleteFood | src/pages/Dashboard/index.tsx:56-62 | sends `DELETE /foods/{id}` and moves the state as `OnDeleteFood` says |
| Dashboard.DashboardComponent.ToggleModal | src/pages/Dashboard/index.tsx:64-66 | flips only the create dialog's flag |
| Dashboard.DashboardComponent.ToggleEditModal | src/pages/Dashboard/index.tsx:68-70 | flips only the edit dialog's flag |
| Dashboard.DashboardComponent.HandleEditFood | src/pages/Dashboard/index.tsx:72-75 | sets the edit target and opens the edit dialog, and nothing else |

`Dashboard.Walkthrough` is a client of the class. It goes through the listing,
create, update and delete scenarios using only the methods' contracts.

## Left out

- Rendering: the JSX, the `Header`, `Food`, `ModalAddFood` and `ModalEditFood`
  components, and `FoodsContainer` styling. Their code is not part of this model.
  Only the condition that mounts the edit dialog is modelled, as `EditModal`.
- The HTTP client and the backend. They are foreign network calls, so each answer
  is a parameter, and the request a handler sends is its return value.
- Logging of failed create and update requests with `console.error`. It is output
  only, and a failure leaves the state unchanged.
- The unhandled rejection when a delete or the listing fails. It is not caught,
  so the removal or replacement never runs, and the model leaves the state
  unchanged.
- React's effect scheduling, promise timing and overlapping requests. The handlers
  read the `foods` captured at render time. Each request is assumed answered
  before the next action starts, so a handler always sees the current list.
- Numeric behaviour of `price`. It is a JavaScript floating-point number; it is
  modelled as `real` and only compared for equality.
- Dashboard.RunKeepsUniqueIds: unique ids are not guaranteed by the page. They
  hold only when the server's listing has unique ids and a created item gets an
  unused id; the lemma assumes both.
