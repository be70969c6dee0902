# Planejaqui item registry — a Dafny model

Planejaqui is a small wishlist for furnishing a new home. The user records the
items they need: name, category, price, store link and description. The app
shows how many items there are, the total planned investment and how many
items have a price. It filters the list by category, and it edits and deletes
entries. This project models the client-side logic behind that:

- the **registry**: the component state of `App` (the ordered item list, the
  filter selection, the item being edited, the modal flag) and the handlers
  that overwrite it (`AppState` in `app.dfy`);
- the **aggregates** derived from the list: counts per category as an
  insertion-ordered record, the total value and the number of priced items
  (`store.dfy`);
- the **list view**: the items shown for the selected category and their
  total (`item_list.dfy`);
- the **category filter**: the "all" count, the count on each category button,
  which button is highlighted and what a click selects (`category_filter.dfy`);
- the **add-item form**: its five text fields, the expand flag, the change
  handler and the guarded submit-and-reset (`Form` in `item_form.dfy`);
- the **category badge colour** lookup with its fallback (`item_card.dfy`);
- the **data types**: `Item`, the closed `Category` set and the `CATEGORIES`
  list (`types.dfy`). `seqs.dfy` holds `Array.prototype.filter` and the
  optional result of `Array.prototype.find`.

Modelling choices:

- Prices are exact integers, so sums are exact.
- The id and creation time of a new item are parameters. `AddItem` requires
  the id to be new to the list; this stands in for `crypto.randomUUID()`.
- The price parser is a parameter of `Form.Submit` (`parsePrice`).
- The counts record is `Counts`, a sequence of (key, count) pairs in the
  order the keys were first written. The record is treated as a plain
  dictionary: a key is present only once it has been written. A JavaScript
  `{}` record differs in two ways:
  - It also answers reads of the names it inherits from `Object.prototype`
    (`INHERITED_KEYS`).
  - `Object.values` lists integer-like keys first.

  No category label is an inherited name (`Label`'s contract) or integer-like.
  The record is used only through its sum and its per-label lookups. So the
  model is exact for every item filed under a listed category. Items filed
  under other strings are covered under "## Left out".
- `Category | 'all'` is the datatype `Selection = All | Only(Category)`.

`App.ExampleSession` replays one use of the app, add, add, delete, and
asserts the derived figures along the way:
- After a sofa priced 1200 is added, the total is 1200, and both the
  "Sala de Estar" count and the priced count are 1.
- After a pan with price 0 is added, the pan goes first, the priced count
  stays 1, and the "Todas" count is 2.
- After the sofa is deleted, only the pan remains, the total is 0, and
  "Sala de Estar" shows an empty listing.

Points where the model states the code's behaviour rather than a simpler
one a reader might expect:

- The form only offers the listed categories in a required select
  (src/components/ItemForm.tsx:94-106). Its price input is a required number
  with a minimum of 0 (src/components/ItemForm.tsx:130-137). The browser
  therefore blocks a submit with an unlisted category or a negative price
  before `handleSubmit` runs. Nothing past the form checks either fact:
  `Item.category` is a plain string, and items restored from storage are
  taken as they are. So the model's `Item` keeps both open. Lemmas that need
  these facts take them as hypotheses, and `ButtonCountsWithinAll` shows what
  changes when a category is outside the set.
- Updating does not address a record by an id argument. The code updates the
  record held in `editingItem`, together with every record that shares its
  id, and `UpdateItem` models exactly that.
- Deleting removes every record with the id. `RemovePresentId` proves that,
  with unique ids, deleting a present id shrinks the list by exactly one;
  `AppState.Valid` is that uniqueness, and every handler keeps it.
- Neither `handleAddItem` nor `handleUpdateItem` closes the modal, and the
  model keeps `isModalOpen` unchanged in both.

## Model

| member | source | states |
|---|---|---|
| `Types.Label` | src/types.ts:11-19 | a label is never empty, never the filter's 'all' value and never a name a `{}` record inherits, so it passes the form's non-empty check and acts as a plain key |
| `Types.CategoriesExact` | src/types.ts:11-30 | CATEGORIES has 8 entries, none repeated, and every member of the union appears in it |
| `Types.FromLabel` | src/types.ts:11-19 | a string decodes to the category whose label it is, and to none when no category has that label |
| `Types.LabelRoundTrip` | src/types.ts:11-19 | every label decodes back to its category, so the eight labels are distinct |
| `Types.LabelInjective` | src/types.ts:11-19 | two categories with the same label are the same category |
| `Types.NewItem` | src/App.tsx:51-55 | the new record has the supplied id and creation time and exactly the draft's other fields |
| `Types.Overlay` | src/App.tsx:73-76 | the overlaid record keeps the edited record's id and creation time and takes every field of the draft |
| `Types.OverlayRoundTrip` | src/types.ts:1-9 | a record is determined by its id, creation time and draft fields: overlaying its own draft returns it |
| `Store.AddKeepsUniqueIds` | src/App.tsx:50-57 | prepending a record under an id new to the list keeps ids unique |
| `Store.AddUpdatesAggregates` | src/App.tsx:95-112 | adding a record raises its category's count by 1 and the total by its price, and the priced count by 1 exactly when its price is positive |
| `Store.RemoveId` | src/App.tsx:59-61 | no record with the id remains, exactly the other records stay, and an absent id leaves the list unchanged |
| `Store.RemoveIdKeepsOthers` | src/App.tsx:59-61 | deleting keeps the other records in their original order, each as often as before |
| `Store.RemovePresentId` | src/App.tsx:59-61 | with unique ids, deleting a present id shortens the list by exactly one |
| `Store.RemoveKeepsUniqueIds` | src/App.tsx:59-61 | deleting keeps ids unique |
| `Store.UniqueCons` | src/App.tsx:56 | a list with a record in front has unique ids exactly when its tail has them and the front record's id is new to the tail |
| `Store.FindById` | src/App.tsx:64 | returns nothing exactly when no record has the id, and otherwise the first record with that id |
| `Store.UniqueFind` | src/App.tsx:64 | with unique ids, looking up a listed record's id finds that record |
| `Store.ReplaceEditing` | src/App.tsx:77-79 | the length and every position's id are unchanged, records with the edited id become the overlay, and all others are identical |
| `Store.UpdateKeepsIdentity` | src/App.tsx:71-82 | updating a listed record keeps ids unique and keeps that record's creation time, gives it every draft field, and leaves every other position as it was |
| `Store.TotalValue` | src/App.tsx:101 | with no negative prices, the total is non-negative |
| `Store.TotalValueSplit` | src/App.tsx:101 | the total over a selection splits over two exclusive predicates that cover it |
| `Store.TotalValueOfFilter` | src/components/ItemList.tsx:18 | with no negative prices, the total of any selection lies between 0 and the overall total |
| `Store.PlannedItems` | src/App.tsx:112 | with the predicate `IsPlanned` (price above 0), the priced count is at most the number of items, and equals it exactly when every price is positive |
| `Store.FilterShorter` | src/App.tsx:112 | filtering out an element that fails the predicate leaves a strictly shorter list |
| `Store.InCategoriesSplit` | src/types.ts:21-30 | membership in a list of distinct categories splits into its first category and the rest, which share no label |
| `Store.Lookup` | src/components/CategoryFilter.tsx:41 | a key never written reads as 0, and a non-zero reading is a stored entry for that key |
| `Store.Bump` | src/App.tsx:97 | an increment adds at most one entry, and a new entry goes last with count 1 |
| `Store.Tally` | src/App.tsx:96-99 | the reduce adds at most one entry per item to the starting record |
| `Store.BumpKeepsKeyOrder` | src/App.tsx:97 | an increment leaves every existing key at its place |
| `Store.TallyKeepsKeyOrder` | src/App.tsx:96-99 | the reduce leaves the starting record's keys at their places, so keys follow first occurrence |
| `Store.ItemCounts` | src/App.tsx:96-99 | each category's entry is the number of items filed under it, the keys are exactly the categories that occur, and no key is stored twice |
| `Store.BumpLookup` | src/App.tsx:97 | one increment raises that key's count by one and leaves every other key's count alone |
| `Store.DistinctKeysCons` | src/App.tsx:97 | a record with an entry in front has distinct keys exactly when its tail has them and the front key is new to the tail |
| `Store.BumpKeys` | src/App.tsx:97 | one increment adds the key if it is missing and keeps keys distinct |
| `Store.TallyLookup` | src/App.tsx:96-99 | the reduce adds each category's occurrences to the starting count |
| `Store.TallyKeys` | src/App.tsx:96-99 | the reduce adds exactly the categories that occur to the keys and keeps them distinct |
| `Seqs.Filter` | src/components/ItemList.tsx:16 | each element is kept as often as it occurs when it satisfies the predicate and otherwise dropped, so the result is never longer |
| `Seqs.FilterIsSubsequence` | src/components/ItemList.tsx:16 | filtering keeps the original relative order |
| `Seqs.FilterKeepsAll` | src/App.tsx:60 | when every element passes, filtering returns the list unchanged |
| `Seqs.SubsequenceOfItself` | src/components/ItemList.tsx:15 | the unfiltered list trivially keeps its own order |
| `Seqs.FilterSplitLength` | src/components/CategoryFilter.tsx:41 | the count kept by a predicate splits over two exclusive predicates that cover it |
| `App.AppState.constructor` | src/App.tsx:11-14 | the state starts with no items, 'all' selected, nothing being edited and the modal closed |
| `App.AppState.AddItem` | src/App.tsx:50-57 | the new record goes in front of the unchanged old list, nothing else changes, and unique ids stay unique |
| `App.AppState.DeleteItem` | src/App.tsx:59-61 | the list becomes the filtered list, nothing else changes, and unique ids stay unique |
| `App.AppState.EditItem` | src/App.tsx:63-69 | a known id makes its first record the one being edited and opens the modal; an unknown id changes nothing |
| `App.AppState.UpdateItem` | src/App.tsx:71-82 | while a record is being edited, the list is updated from it and editing ends; otherwise nothing changes; the modal flag is never touched |
| `App.AppState.CloseModal` | src/App.tsx:84-87 | editing ends and the modal closes; the list is untouched |
| `App.AppState.OpenAddModal` | src/App.tsx:89-92 | editing ends and the modal opens; the list is untouched |
| `App.AppState.SelectCategory` | src/App.tsx:251 | the filter selection becomes the clicked value; nothing else changes |
| `App.AppState.SubmitDraft` | src/App.tsx:275 | the form's callback updates while a record is being edited and adds otherwise |
| `App.EditThenUpdate` | src/App.tsx:63-82 | editing a listed record and submitting keeps the length, that record's id and creation time, and every other record; the record takes the draft fields |
| `App.SubmitForm` | src/App.tsx:274-278 | while the modal is open, a guarded submit adds or updates with the draft built from the form, then resets the form; a failed guard changes nothing |
| `ItemList.Filtered` | src/components/ItemList.tsx:14-16 | 'all' shows the whole list; a category shows, through the predicate `InCategory`, exactly the items with that label; never more items than the list holds |
| `ItemList.FilteredKeepsOrder` | src/components/ItemList.tsx:14-16 | the shown items keep the list's order and each matching item appears as often as in the list |
| `ItemList.ListTotal` | src/components/ItemList.tsx:18 | under 'all' the list total equals the registry's total |
| `ItemList.ListTotalBounded` | src/components/ItemList.tsx:18 | with no negative prices, a selection's total lies between 0 and the overall total |
| `ItemList.CategoryTotalsOfDistinct` | src/components/ItemList.tsx:16-18 | over distinct categories, the per-category totals add up to the total of the items filed under one of them |
| `ItemList.CategoryTotalsAddUp` | src/components/ItemList.tsx:14-18 | when every stored category is a listed one, the eight category totals add up to the 'all' total |
| `ItemList.Render` | src/components/ItemList.tsx:27-39 | the empty state appears exactly when the list is empty, whatever the selection |
| `CategoryFilter.AllCount` | src/components/CategoryFilter.tsx:28 | the sum of the record's values is at least each single count |
| `CategoryFilter.ButtonCount` | src/components/CategoryFilter.tsx:41 | a category button's count never exceeds the "Todas" count |
| `CategoryFilter.IsSelected` | src/components/CategoryFilter.tsx:23-36 | a button is highlighted exactly when the string its value stands for ('all' or the label) equals the selection's string |
| `CategoryFilter.AllCountIsLength` | src/components/CategoryFilter.tsx:28 | the "Todas" count, the sum of the record's values, is the number of items |
| `CategoryFilter.BumpAllCount` | src/components/CategoryFilter.tsx:28 | one increment raises the sum of the record's values by one |
| `CategoryFilter.TallyAllCount` | src/components/CategoryFilter.tsx:28 | the reduce raises the sum of the record's values by the number of items |
| `CategoryFilter.ButtonCountIsShownCount` | src/components/CategoryFilter.tsx:41 | a category button shows the number of items with its label, 0 when none, which is the number of cards shown once it is clicked |
| `CategoryFilter.Buttons` | src/components/CategoryFilter.tsx:20-43 | the buttons are 'all' followed by the eight categories in list order |
| `CategoryFilter.SumButtonCountsOfDistinct` | src/components/CategoryFilter.tsx:41 | over distinct categories, the button counts add up to the number of items filed under one of them |
| `CategoryFilter.ButtonCountsWithinAll` | src/components/CategoryFilter.tsx:28-41 | the category buttons' counts add up to at most the "Todas" count, and equal it exactly when every stored category is a listed one |
| `CategoryFilter.ExactlyOneSelected` | src/components/CategoryFilter.tsx:23-36 | whatever the selection, exactly one button is highlighted |
| `CategoryFilter.ClickHighlightsThatButton` | src/components/CategoryFilter.tsx:21-36 | after a click passes a button's value on, that button and no other is highlighted |
| `ItemCard.CategoryColor` | src/components/ItemCard.tsx:19-31 | a listed category gets its own table entry, any other string gets the 'Outros' entry, and the result is always a table entry |
| `ItemCard.TableKeys` | src/components/ItemCard.tsx:20-29 | the table is keyed by exactly the eight category labels |
| `ItemCard.ColorsDistinct` | src/components/ItemCard.tsx:20-29 | distinct categories get distinct colours |
| `ItemForm.With` | src/components/ItemForm.tsx:44-46 | the named field takes the new value and every other field is unchanged |
| `ItemForm.ToDraft` | src/components/ItemForm.tsx:25-31 | name, description, store link and category pass through verbatim, and the price is the parsed price text |
| `ItemForm.CanSubmit` | src/components/ItemForm.tsx:23 | the guard holds exactly when each field marked required (name, category, price) is non-empty |
| `ItemForm.OptionalFieldsDoNotGuard` | src/components/ItemForm.tsx:23 | the guard at line 23 reads no optional field: editing the description or the store link never changes what it decides |
| `ItemForm.RequiredFieldsGuard` | src/components/ItemForm.tsx:10-23 | an empty form cannot be submitted, and non-empty name, category and price make any form submittable |
| `ItemForm.Form.constructor` | src/components/ItemForm.tsx:10-18 | the form starts empty and collapsed |
| `ItemForm.Form.Change` | src/components/ItemForm.tsx:44-46 | only the named field changes and the expand flag is untouched |
| `ItemForm.Form.Submit` | src/components/ItemForm.tsx:20-42 | with a required field empty nothing is emitted and nothing changes; otherwise the draft is emitted, all fields are cleared and the form collapses |
| `ItemForm.Form.Expand` | src/components/ItemForm.tsx:52 | the form expands and its fields are untouched |
| `ItemForm.Form.Cancel` | src/components/ItemForm.tsx:165 | the form collapses and its fields are untouched |

## Left out

- Store.ItemCounts: keys are treated as plain dictionary keys. In the source, an item filed under `"__proto__"` adds no key, because the write at src/App.tsx:97 is ignored. An item filed under another inherited name such as `"constructor"` stores a string built from the inherited value. The contract holds for every category outside `INHERITED_KEYS`, which includes every listed label.
- Store.Lookup: a read of an inherited name finds nothing here, where `itemCounts[name] || 0` in the source finds the inherited value.
- Store.Bump: an increment of an inherited name adds one here. In the source it is ignored for `"__proto__"`, and for the other inherited names it stores a string. A new key always goes last here. In the source's `Object.values` order, a new integer-like key such as `"5"` goes before every non-integer key, in numeric order among the integer-like ones. No label is integer-like, and the record is read only through its sum and per-label lookups, so neither depends on this order.
- Store.BumpKeepsKeyOrder: for a new integer-like key, the source's `Object.values` order moves that key ahead of the existing non-integer keys, so they no longer keep their places. The lemma states the order of first insertion, which the source's record keeps only among keys that are not integer-like.
- Store.TallyKeepsKeyOrder: with integer-like categories, the source's keys do not follow first occurrence: the integer-like ones come first, in numeric order. The lemma states first-occurrence order, which holds in the source only when no category is integer-like.
- Store.Tally: it carries the same inherited-name gap over the whole reduce.
- Store.BumpLookup: it carries the same inherited-name gap; the increment it describes is the source's only for keys outside `INHERITED_KEYS`.
- Store.BumpKeys: it carries the same inherited-name gap; in the source `"__proto__"` never becomes a key.
- Store.TallyLookup: it carries the same inherited-name gap over the whole reduce.
- Store.TallyKeys: it carries the same inherited-name gap; in the source `"__proto__"` never becomes a key.
- CategoryFilter.AllCountIsLength: it is exact only when no item is filed under an inherited name. With one filed under `"__proto__"` the source shows a smaller "Todas" count. With one filed under `"constructor"` the source shows a concatenated string.
- CategoryFilter.BumpAllCount: it carries the same inherited-name gap.
- CategoryFilter.TallyAllCount: it carries the same inherited-name gap over the reduce.
- CategoryFilter.ButtonCountsWithinAll: its "Todas" side carries the `AllCountIsLength` gap for items filed under inherited names.
- ItemCard.CategoryColor: the colour table is a `{}` literal in the source (src/components/ItemCard.tsx:20-30). For an inherited name such as `"constructor"` or `"toString"` it returns the inherited value instead of the 'Outros' classes. The contract holds for every string outside `INHERITED_KEYS`.
- ItemForm.Form.Submit: the browser's constraint validation is not modelled. That covers the `required` attributes, `min="0"` on the price and `type="url"` on the store link (src/components/ItemForm.tsx:94-147). The modelled guard is the check at line 23 alone.
- App.SubmitForm: the form lives inside the modal, which unmounts it whenever it closes (src/components/Modal.tsx:31). Closing therefore also discards what was typed. The model keeps `Form` and `AppState` separate and does not reset the form on `CloseModal`. It only requires the modal to be open while submitting.

- Loading from and saving to `localStorage` (src/App.tsx:19-37) is browser I/O and is not modelled. This includes the JSON round trip and turning stored dates back into `Date` values. On a parse failure the app keeps the empty list; the model's starting state is that empty list.
- The scroll listener and `isScrolled` (src/App.tsx:40-48) are DOM event plumbing.
- The `filtersOpen` disclosure toggle (src/App.tsx:16, 232) only decides whether the filter is rendered.
- Currency and date formatting with `Intl.NumberFormat` and `Intl.DateTimeFormat` are library calls. So is the "last update" date shown from the first item.
- `crypto.randomUUID()` and `new Date()` are not modelled. The id and timestamp are parameters, and `AddItem` requires the id to be new to the list.
- Floating-point prices are not modelled. `parseFloat` is a parameter `parsePrice: string -> int` and prices are exact integers. NaN, rounding in sums and non-numeric text are outside the model.
- `ItemForm.With`: `handleChange` accepts any field name, and a name outside the five would add a new key. The model takes a closed `Field` enumeration because the form only passes those five names.
- The `editingItem` and `onCancel` props that App passes to the form (src/App.tsx:276-277) are not declared by the form. They have no effect, so the form is modelled without prefill.
- The modal's Escape-key listener and body-style changes (src/components/Modal.tsx) are DOM side effects. The save endpoint (server.js), the header and the style configuration hold no registry logic.
- All JSX markup and styling is left out. The only parts of it in the model are the values it reads: counts, totals, which button is highlighted, and the empty-state branch.
