/** The state bookkeeping of the dashboard page: the food list, the edit
    target and the two dialog flags, and how each handler changes them once
    its request has been answered. A request's answer is an input: `None`
    is a failed request, `Some(v)` a successful one carrying the body `v`. */
module Dashboard {
  import opened Wrappers
  import opened Food
  import opened FoodList

  /** The requests the page sends to the `/foods` resource. */
  datatype Request =
    | Get                                 // GET /foods
    | Post(payload: Draft)                // POST /foods
    | Put(id: string, merged: FoodItem)   // PUT /foods/{id}
    | Delete(id: string)                  // DELETE /foods/{id}

  /** The four pieces of component state. */
  datatype State = State(
    foods: seq<FoodItem>,
    editingFood: Option<FoodItem>,
    addModalOpen: bool,
    editModalOpen: bool)

  /** The state on first render. */
  const Initial: State := State([], None, false, false)

  /** The load effect: the answer to `GET /foods` replaces the list. */
  function OnLoad(s: State, response: Option<seq<FoodItem>>): (t: State)
    ensures response.Some? ==> t.foods == response.value
    ensures response.None? ==> t.foods == s.foods
    ensures t.editingFood == s.editingFood
    ensures t.addModalOpen == s.addModalOpen && t.editModalOpen == s.editModalOpen
  {
    match response
    case Some(list) => s.(foods := list)
    case None => s
  }

  /** handleAddFood: the created item is appended; a failure changes nothing. */
  function OnAddFood(s: State, response: Option<FoodItem>): (t: State)
    ensures response.Some? ==>
      |t.foods| == |s.foods| + 1 && t.foods[..|s.foods|] == s.foods
      && t.foods[|s.foods|] == response.value
    ensures response.None? ==> t == s
    ensures t.editingFood == s.editingFood
    ensures t.addModalOpen == s.addModalOpen && t.editModalOpen == s.editModalOpen
  {
    match response
    case Some(item) => s.(foods := Append(s.foods, item))
    case None => s
  }

  /** The request handleUpdateFood sends: none without an edit target,
      otherwise a PUT to the target's id carrying the target overlaid with
      the draft. */
  function UpdateRequest(s: State, d: Draft): (r: Option<Request>)
    ensures r.None? <==> s.editingFood.None?
    ensures r.Some? ==> r.value.Put? && r.value.id == s.editingFood.value.id
    ensures r.Some? ==> r.value.merged == Merge(s.editingFood.value, d)
  {
    match s.editingFood
    case None => None
    case Some(target) => Some(Put(target.id, Merge(target, d)))
  }

  /** handleUpdateFood: without an edit target nothing happens; on success
      every entry with the answer's id becomes the answer. */
  function OnUpdateFood(s: State, response: Option<FoodItem>): (t: State)
    ensures s.editingFood.None? || response.None? ==> t == s
    ensures |t.foods| == |s.foods|
    ensures s.editingFood.Some? && response.Some? ==>
      forall i :: 0 <= i < |s.foods| ==>
        t.foods[i] == if s.foods[i].id == response.value.id then response.value else s.foods[i]
    ensures t.editingFood == s.editingFood
    ensures t.addModalOpen == s.addModalOpen && t.editModalOpen == s.editModalOpen
  {
    if s.editingFood.None? then s
    else match response
      case Some(item) => s.(foods := ReplaceById(s.foods, item))
      case None => s
  }

  /** handleDeleteFood: on success the entries with `id` are dropped and the
      others kept in order; a failure changes nothing. */
  function OnDeleteFood(s: State, id: string, response: Option<()>): (t: State)
    ensures response.None? ==> t == s
    ensures response.Some? ==>
      |t.foods| == |s.foods| - CountId(s.foods, id)
      && !HasId(t.foods, id)
      && IsSubsequence(t.foods, s.foods)
      && (forall e :: e in t.foods <==> e in s.foods && e.id != id)
    ensures t.editingFood == s.editingFood
    ensures t.addModalOpen == s.addModalOpen && t.editModalOpen == s.editModalOpen
  {
    match response
    case Some(_) =>
      RemoveIsSubsequence(s.foods, id);
      RemoveMembers(s.foods, id);
      s.(foods := RemoveById(s.foods, id))
    case None => s
  }

  /** toggleModal: only the create dialog's flag flips. */
  function OnToggleModal(s: State): (t: State)
    ensures t.addModalOpen != s.addModalOpen
    ensures t.(addModalOpen := s.addModalOpen) == s
  {
    s.(addModalOpen := !s.addModalOpen)
  }

  /** toggleEditModal: only the edit dialog's flag flips. */
  function OnToggleEditModal(s: State): (t: State)
    ensures t.editModalOpen != s.editModalOpen
    ensures t.(editModalOpen := s.editModalOpen) == s
  {
    s.(editModalOpen := !s.editModalOpen)
  }

  /** handleEditFood: the item becomes the edit target and the edit dialog opens. */
  function OnEditFood(s: State, food: FoodItem): (t: State)
    ensures t.editingFood == Some(food) && t.editModalOpen
    ensures t.foods == s.foods && t.addModalOpen == s.addModalOpen
  {
    s.(editingFood := Some(food), editModalOpen := true)
  }

  /** The edit dialog as rendered: absent without an edit target, otherwise
      given the target and the edit flag as its open state. */
  function EditModal(s: State): (m: Option<(FoodItem, bool)>)
    ensures m.Some? <==> s.editingFood.Some?
    ensures m.Some? ==> m.value.0 == s.editingFood.value && m.value.1 == s.editModalOpen
  {
    match s.editingFood
    case None => None
    case Some(f) => Some((f, s.editModalOpen))
  }

  // ---------------------------------------------------------------------
  // Sequences of user actions, each answered before the next one starts.

  datatype Action =
    | Load(listed: Option<seq<FoodItem>>)
    | AddFood(draft: Draft, created: Option<FoodItem>)
    | UpdateFood(draft: Draft, updated: Option<FoodItem>)
    | DeleteFood(id: string, deleted: Option<()>)
    | ToggleModal
    | ToggleEditModal
    | EditFood(food: FoodItem)

  function Step(s: State, a: Action): State {
    match a
    case Load(r) => OnLoad(s, r)
    case AddFood(_, r) => OnAddFood(s, r)
    case UpdateFood(_, r) => OnUpdateFood(s, r)
    case DeleteFood(id, r) => OnDeleteFood(s, id, r)
    case ToggleModal => OnToggleModal(s)
    case ToggleEditModal => OnToggleEditModal(s)
    case EditFood(f) => OnEditFood(s, f)
  }

  function Run(s: State, actions: seq<Action>): State
    decreases |actions|
  {
    if actions == [] then s else Run(Step(s, actions[0]), actions[1..])
  }

  /** The server keeps ids unique: a listing has unique ids, and a created
      item has an id not yet listed. */
  predicate ServerKeepsIdsUnique(s: State, a: Action) {
    match a
    case Load(Some(list)) => UniqueIds(list)
    case AddFood(_, Some(item)) => !HasId(s.foods, item.id)
    case _ => true
  }

  predicate ServerKeepsIdsUniqueOnRun(s: State, actions: seq<Action>)
    decreases |actions|
  {
    actions == [] ||
    (ServerKeepsIdsUnique(s, actions[0])
     && ServerKeepsIdsUniqueOnRun(Step(s, actions[0]), actions[1..]))
  }

  // ---------------------------------------------------------------------
  // Properties

  /** Toggling a dialog twice restores the state. */
  lemma ToggleTwice(s: State)
    ensures OnToggleModal(OnToggleModal(s)) == s
    ensures OnToggleEditModal(OnToggleEditModal(s)) == s
  {
  }

  /** Selecting an item for editing renders the edit dialog, open, on that item. */
  lemma EditFoodOpensDialog(s: State, food: FoodItem)
    ensures EditModal(OnEditFood(s, food)) == Some((food, true))
    ensures EditModal(Initial) == None
  {
  }

  /** An update after selecting an item is sent to that item's id and
      carries the item overlaid with the draft. */
  lemma UpdateTargetsSelectedFood(s: State, food: FoodItem, d: Draft)
    ensures UpdateRequest(OnEditFood(s, food), d) == Some(Put(food.id, Merge(food, d)))
  {
  }

  /** With unique ids and the answer's id listed at `k`, a successful update
      replaces exactly that entry. */
  lemma UpdateReplacesOneEntry(s: State, item: FoodItem, k: nat)
    requires s.editingFood.Some? && UniqueIds(s.foods)
    requires k < |s.foods| && s.foods[k].id == item.id
    ensures OnUpdateFood(s, Some(item)).foods == s.foods[k := item]
  {
    ReplaceUnique(s.foods, item, k);
  }

  /** With unique ids and `id` listed at `k`, a successful delete removes
      exactly that entry, and the list is one shorter. */
  lemma DeleteRemovesOneEntry(s: State, id: string, k: nat)
    requires UniqueIds(s.foods) && k < |s.foods| && s.foods[k].id == id
    ensures OnDeleteFood(s, id, Some(())).foods == s.foods[..k] + s.foods[k + 1..]
    ensures |OnDeleteFood(s, id, Some(())).foods| == |s.foods| - 1
  {
    RemoveUnique(s.foods, id, k);
  }

  /** One step keeps the listed ids unique when the server does. */
  lemma StepKeepsUniqueIds(s: State, a: Action)
    requires UniqueIds(s.foods) && ServerKeepsIdsUnique(s, a)
    ensures UniqueIds(Step(s, a).foods)
  {
    match a
    case AddFood(_, Some(item)) => AppendFresh(s.foods, item);
    case UpdateFood(_, Some(item)) => ReplaceKeepsIds(s.foods, item);
    case DeleteFood(id, Some(_)) => RemoveKeepsUniqueIds(s.foods, id);
    case _ =>
  }

  /** Any run keeps the listed ids unique when the server does. */
  lemma {:induction false} RunKeepsUniqueIds(s: State, actions: seq<Action>)
    requires UniqueIds(s.foods) && ServerKeepsIdsUniqueOnRun(s, actions)
    ensures UniqueIds(Run(s, actions).foods)
    decreases |actions|
  {
    if actions != [] {
      StepKeepsUniqueIds(s, actions[0]);
      RunKeepsUniqueIds(Step(s, actions[0]), actions[1..]);
    }
  }

  /** No handler clears the edit target: once the edit dialog is rendered,
      it stays rendered. */
  lemma {:induction false} RunKeepsEditTarget(s: State, actions: seq<Action>)
    requires s.editingFood.Some?
    ensures EditModal(Run(s, actions)).Some?
    decreases |actions|
  {
    if actions != [] {
      RunKeepsEditTarget(Step(s, actions[0]), actions[1..]);
    }
  }

  /** Only the dialog handlers touch the dialog flags, and only handleEditFood
      touches the edit target. */
  lemma {:induction false} RequestsKeepDialogs(s: State, actions: seq<Action>)
    requires forall i :: 0 <= i < |actions| ==>
      actions[i].Load? || actions[i].AddFood? || actions[i].UpdateFood? || actions[i].DeleteFood?
    ensures Run(s, actions).editingFood == s.editingFood
    ensures Run(s, actions).addModalOpen == s.addModalOpen
    ensures Run(s, actions).editModalOpen == s.editModalOpen
    decreases |actions|
  {
    if actions != [] {
      assert forall i :: 0 <= i < |actions[1..]| ==> actions[1..][i] == actions[i + 1];
      RequestsKeepDialogs(Step(s, actions[0]), actions[1..]);
    }
  }

  // ---------------------------------------------------------------------
  // The page as a component object.

  class DashboardComponent {
    var foods: seq<FoodItem>
    var editingFood: Option<FoodItem>
    var addModalOpen: bool
    var editModalOpen: bool

    /** The component's state as a value. */
    function Snapshot(): State
      reads this
    {
      State(foods, editingFood, addModalOpen, editModalOpen)
    }

    /** First render: empty list, no edit target, both dialogs closed. */
    constructor ()
      ensures Snapshot() == Initial
    {
      foods := [];
      editingFood := None;
      addModalOpen := false;
      editModalOpen := false;
    }

    /** The mount effect, given the answer to its `GET /foods`. */
    method Load(response: Option<seq<FoodItem>>) returns (sent: Request)
      modifies this
      ensures sent == Get
      ensures Snapshot() == OnLoad(old(Snapshot()), response)
    {
      sent := Get;
      if response.Some? {
        foods := response.value;
      }
    }

    method HandleAddFood(food: Draft, response: Option<FoodItem>) returns (sent: Request)
      modifies this
      ensures sent == Post(AddPayload(food))
      ensures Snapshot() == OnAddFood(old(Snapshot()), response)
    {
      sent := Post(AddPayload(food));
      if response.Some? {
        foods := Append(foods, response.value);
      }
    }

    method HandleUpdateFood(food: Draft, response: Option<FoodItem>) returns (sent: Option<Request>)
      modifies this
      ensures sent == UpdateRequest(old(Snapshot()), food)
      ensures Snapshot() == OnUpdateFood(old(Snapshot()), response)
    {
      if editingFood.None? {
        return None;
      }
      sent := Some(Put(editingFood.value.id, Merge(editingFood.value, food)));
      if response.Some? {
        foods := ReplaceById(foods, response.value);
      }
    }

    method HandleDeleteFood(id: string, response: Option<()>) returns (sent: Request)
      modifies this
      ensures sent == Delete(id)
      ensures Snapshot() == OnDeleteFood(old(Snapshot()), id, response)
    {
      sent := Delete(id);
      if response.Some? {
        foods := RemoveById(foods, id);
      }
    }

    method ToggleModal()
      modifies this
      ensures Snapshot() == OnToggleModal(old(Snapshot()))
    {
      addModalOpen := !addModalOpen;
    }

    method ToggleEditModal()
      modifies this
      ensures Snapshot() == OnToggleEditModal(old(Snapshot()))
    {
      editModalOpen := !editModalOpen;
    }

    method HandleEditFood(food: FoodItem)
      modifies this
      ensures Snapshot() == OnEditFood(old(Snapshot()), food)
    {
      editingFood := Some(food);
      editModalOpen := true;
    }
  }

  /** A client of the component: the create, edit and delete walk-through,
      with each request answered by the server. */
  method Walkthrough(rice: FoodItem, beans: FoodItem)
    requires rice.id == "1" && beans.id == "2"
  {
    var page := new DashboardComponent();
    var sent := page.Load(Some([rice]));
    assert page.foods == [rice];

    var draft := EmptyDraft.(name := Some("Beans"), price := Some(5.0), available := Some(false));
    sent := page.HandleAddFood(draft, Some(beans));
    assert sent.payload.available == Some(true) && sent.payload.name == Some("Beans");
    assert page.foods == [rice, beans];

    var none := page.HandleUpdateFood(EmptyDraft, Some(beans));
    assert none == None && page.foods == [rice, beans];

    page.HandleEditFood(rice);
    assert EditModal(page.Snapshot()) == Some((rice, true));
    var put := page.HandleUpdateFood(EmptyDraft.(price := Some(10.0)), Some(rice.(price := 10.0)));
    assert put == Some(Put("1", rice.(price := 10.0)));
    assert page.foods == [rice.(price := 10.0), beans];

    sent := page.HandleDeleteFood("1", None);
    assert page.foods == [rice.(price := 10.0), beans];
    sent := page.HandleDeleteFood("1", Some(()));
    assert page.foods[..] == [beans] by {
      assert [rice.(price := 10.0), beans][1..] == [beans];
    }
  }
}
