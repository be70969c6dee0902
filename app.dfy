/** The application's component state and the handlers that overwrite it:
    the item list, the filter selection, the item being edited and whether
    the modal is open. */
module App {

  import opened Seqs
  import opened Types
  import opened Store
  import opened ItemForm
  import opened ItemList
  import opened CategoryFilter

  class AppState {
    var items: seq<Item>
    var selectedCategory: Selection
    var editingItem: Option<Item>
    var isModalOpen: bool

    /** Every id in the registry is unique. */
    ghost predicate Valid()
      reads this
    {
      UniqueIds(items)
    }

    /** The initial state: no items, every category shown, nothing being edited, modal closed. */
    constructor ()
      ensures items == [] && selectedCategory == All && editingItem == None && !isModalOpen
      ensures Valid()
    {
      items := [];
      selectedCategory := All;
      editingItem := None;
      isModalOpen := false;
    }

    /** handleAddItem: the draft becomes a new record under the given id and
        creation time and is placed in front of the existing items. */
    method AddItem(d: Draft, id: string, createdAt: int)
      requires !HasId(items, id)
      modifies this
      ensures items == [NewItem(d, id, createdAt)] + old(items)
      ensures selectedCategory == old(selectedCategory)
      ensures editingItem == old(editingItem) && isModalOpen == old(isModalOpen)
      ensures old(Valid()) ==> Valid()
    {
      if UniqueIds(items) {
        AddKeepsUniqueIds(items, d, id, createdAt);
      }
      items := [NewItem(d, id, createdAt)] + items;
    }

    /** handleDeleteItem: every record with the id is dropped, the rest keep their order. */
    method DeleteItem(id: string)
      modifies this
      ensures items == RemoveId(old(items), id)
      ensures selectedCategory == old(selectedCategory)
      ensures editingItem == old(editingItem) && isModalOpen == old(isModalOpen)
      ensures old(Valid()) ==> Valid()
    {
      if UniqueIds(items) {
        RemoveKeepsUniqueIds(items, id);
      }
      items := RemoveId(items, id);
    }

    /** handleEditItem: the first record with the id becomes the one being
        edited and the modal opens; an unknown id changes nothing. */
    method EditItem(id: string)
      modifies this
      ensures items == old(items) && selectedCategory == old(selectedCategory)
      ensures HasId(items, id) ==> editingItem == FindById(items, id) && isModalOpen
      ensures !HasId(items, id) ==> editingItem == old(editingItem) && isModalOpen == old(isModalOpen)
    {
      var found := FindById(items, id);
      if found.Some? {
        editingItem := found;
        isModalOpen := true;
      }
    }

    /** handleUpdateItem: with a record being edited, every record sharing its
        id is replaced by that record overlaid with the draft, and editing ends;
        the modal flag is left alone. With nothing being edited, nothing changes. */
    method UpdateItem(d: Draft)
      modifies this
      ensures old(editingItem).Some? ==>
                items == ReplaceEditing(old(items), old(editingItem).value, d) && editingItem == None
      ensures old(editingItem).None? ==> items == old(items) && editingItem == None
      ensures selectedCategory == old(selectedCategory) && isModalOpen == old(isModalOpen)
      ensures old(Valid()) ==> Valid()
    {
      if editingItem.Some? {
        items := ReplaceEditing(items, editingItem.value, d);
        editingItem := None;
      }
    }

    /** handleCloseModal. */
    method CloseModal()
      modifies this
      ensures editingItem == None && !isModalOpen
      ensures items == old(items) && selectedCategory == old(selectedCategory)
    {
      editingItem := None;
      isModalOpen := false;
    }

    /** handleOpenAddModal. */
    method OpenAddModal()
      modifies this
      ensures editingItem == None && isModalOpen
      ensures items == old(items) && selectedCategory == old(selectedCategory)
    {
      editingItem := None;
      isModalOpen := true;
    }

    /** setSelectedCategory, the filter's change handler. */
    method SelectCategory(selection: Selection)
      modifies this
      ensures selectedCategory == selection
      ensures items == old(items) && editingItem == old(editingItem) && isModalOpen == old(isModalOpen)
    {
      selectedCategory := selection;
    }

    /** The form's submit callback: an update while a record is being edited,
        an add otherwise. The id is only used when adding. */
    method SubmitDraft(d: Draft, id: string, createdAt: int)
      requires editingItem.None? ==> !HasId(items, id)
      modifies this
      ensures old(editingItem).None? ==> items == [NewItem(d, id, createdAt)] + old(items)
      ensures old(editingItem).Some? ==> items == ReplaceEditing(old(items), old(editingItem).value, d)
      ensures editingItem == None
      ensures selectedCategory == old(selectedCategory) && isModalOpen == old(isModalOpen)
      ensures old(Valid()) ==> Valid()
    {
      if editingItem.Some? {
        UpdateItem(d);
      } else {
        AddItem(d, id, createdAt);
      }
    }
  }

  /** An edit started from a listed record and submitted with a draft leaves
      the list the same length, keeps that record's id and creation time, gives
      it every field of the draft, and leaves every other record as it was. */
  method EditThenUpdate(app: AppState, k: nat, d: Draft)
    requires app.Valid() && k < |app.items|
    modifies app
    ensures app.Valid() && |app.items| == old(|app.items|)
    ensures app.items[k].id == old(app.items[k].id) && app.items[k].createdAt == old(app.items[k].createdAt)
    ensures DraftOf(app.items[k]) == d
    ensures forall i :: 0 <= i < |app.items| && i != k ==> app.items[i] == old(app.items[i])
    ensures app.editingItem == None && app.isModalOpen
  {
    var target := app.items[k];
    app.EditItem(target.id);
    var found := FindById(app.items, target.id);
    assert found == Some(target) by {
      UniqueFind(app.items, k);
    }
    app.UpdateItem(d);
    UpdateKeepsIdentity(old(app.items), k, d);
  }

  /** The modal's form wired to the registry: a submit that passes the guard
      updates the record being edited if there is one, and adds a new record
      otherwise; a submit that fails the guard changes nothing. The form is
      rendered inside the modal, so it exists only while the modal is open. */
  method SubmitForm(app: AppState, form: Form, parsePrice: string -> int, id: string, createdAt: int)
    requires app.isModalOpen
    requires app.editingItem.None? ==> !HasId(app.items, id)
    modifies app, form
    ensures !CanSubmit(old(form.formData)) ==>
              app.items == old(app.items) && app.editingItem == old(app.editingItem) &&
              form.formData == old(form.formData) && form.isExpanded == old(form.isExpanded)
    ensures CanSubmit(old(form.formData)) && old(app.editingItem).None? ==>
              app.items == [NewItem(ToDraft(old(form.formData), parsePrice), id, createdAt)] + old(app.items)
    ensures CanSubmit(old(form.formData)) && old(app.editingItem).Some? ==>
              app.items == ReplaceEditing(old(app.items), old(app.editingItem).value, ToDraft(old(form.formData), parsePrice))
    ensures CanSubmit(old(form.formData)) ==>
              app.editingItem == None && form.formData == EMPTY_FORM && !form.isExpanded
    ensures app.selectedCategory == old(app.selectedCategory) && app.isModalOpen == old(app.isModalOpen)
    ensures old(app.Valid()) ==> app.Valid()
  {
    var submitted := form.Submit(parsePrice);
    if submitted.Some? {
      app.SubmitDraft(submitted.value, id, createdAt);
    }
  }

  /** A session: two additions, the derived figures, then a deletion. */
  method ExampleSession()
  {
    var app := new AppState();
    app.AddItem(Draft("Sofá", "", 1200, "", "Sala de Estar"), "sofa", 1);
    assert |app.items| == 1 && TotalValue(app.items) == 1200;
    assert CountOf(app.items, "Sala de Estar") == 1;
    assert PlannedItems(app.items) == 1;
    app.AddItem(Draft("Panela", "", 0, "", "Cozinha"), "panela", 2);
    assert app.items[0].name == "Panela" && app.items[1].name == "Sofá";
    assert PlannedItems(app.items) == 1 by {
      AddUpdatesAggregates(app.items[1..], app.items[0]);
      assert app.items == [app.items[0]] + app.items[1..];
    }
    AllCountIsLength(app.items);
    assert AllCount(ItemCounts(app.items)) == 2;
    app.DeleteItem("sofa");
    assert app.items == [NewItem(Draft("Panela", "", 0, "", "Cozinha"), "panela", 2)];
    assert |app.items| == 1 && TotalValue(app.items) == 0;
    assert Render(app.items, Only(SalaDeEstar)) == Listing([], 0);
  }
}
