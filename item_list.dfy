/** The list view: the items shown for the selected category and their total. */
module ItemList {

  import opened Seqs
  import opened Types
  import opened Store

  /** `filteredItems`: all items, or those whose category is the selected label. */
  function Filtered(items: seq<Item>, selected: Selection): (r: seq<Item>)
    ensures |r| <= |items|
    ensures selected.All? ==> r == items
    ensures selected.Only? ==> forall x :: x in r <==> x in items && x.category == Label(selected.category)
  {
    match selected
    case All => items
    case Only(c) => Filter(InCategory(Label(c)), items)
  }

  /** The view keeps the list's order and every matching item, as often as it occurs. */
  lemma FilteredKeepsOrder(items: seq<Item>, selected: Selection)
    ensures IsSubsequence(Filtered(items, selected), items)
    ensures forall x :: multiset(Filtered(items, selected))[x] ==
                          if selected.All? || x.category == Label(selected.category) then multiset(items)[x] else 0
  {
    match selected
    case All => SubsequenceOfItself(items);
    case Only(c) => FilterIsSubsequence(InCategory(Label(c)), items);
  }

  /** The list's local `totalValue`: the sum of prices over the shown items. */
  function ListTotal(items: seq<Item>, selected: Selection): (total: int)
    ensures selected.All? ==> total == TotalValue(items)
  {
    TotalValue(Filtered(items, selected))
  }

  /** With no negative prices, a category's total never exceeds the overall total. */
  lemma ListTotalBounded(items: seq<Item>, selected: Selection)
    requires forall x :: x in items ==> x.price >= 0
    ensures 0 <= ListTotal(items, selected) <= TotalValue(items)
  {
    match selected
    case All =>
    case Only(c) => TotalValueOfFilter(InCategory(Label(c)), items);
  }

  /** The list totals of the categories in `cats`, added up. */
  function CategoryTotals(items: seq<Item>, cats: seq<Category>): int
  {
    if cats == [] then 0 else ListTotal(items, Only(cats[0])) + CategoryTotals(items, cats[1..])
  }

  /** Over distinct categories, the per-category totals add up to the total of
      the items filed under one of them. */
  lemma {:induction false} CategoryTotalsOfDistinct(items: seq<Item>, cats: seq<Category>)
    requires Distinct(cats)
    ensures CategoryTotals(items, cats) == TotalValue(Filter(InCategories(cats), items))
  {
    if cats != [] {
      var rest := cats[1..];
      InCategoriesSplit(cats);
      CategoryTotalsOfDistinct(items, rest);
      TotalValueSplit(InCategories(cats), InCategory(Label(cats[0])), InCategories(rest), items);
    }
  }

  /** When every stored category is one of the listed ones, the category totals
      shown one selection at a time add up to the total of the whole list. */
  lemma CategoryTotalsAddUp(items: seq<Item>)
    requires forall x :: x in items ==> IsCategoryLabel(x.category)
    ensures CategoryTotals(items, CATEGORIES) == ListTotal(items, All)
  {
    CategoriesExact();
    CategoryTotalsOfDistinct(items, CATEGORIES);
    forall x | x in items ensures InCategories(CATEGORIES)(x) {
      var c := FromLabel(x.category).value;
      assert c in CATEGORIES && Label(c) == x.category;
    }
    FilterKeepsAll(InCategories(CATEGORIES), items);
  }

  /** What the list renders. */
  datatype View = EmptyState | Listing(shown: seq<Item>, total: int)

  /** An empty registry shows the empty state, whatever is selected; otherwise
      the shown items and their total. */
  function Render(items: seq<Item>, selected: Selection): (v: View)
    ensures v.EmptyState? <==> items == []
    ensures v.Listing? ==> |v.shown| <= |items|
  {
    if |items| == 0 then EmptyState
    else Listing(Filtered(items, selected), ListTotal(items, selected))
  }
}
