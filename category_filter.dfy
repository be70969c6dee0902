/** The category filter: an "all" button with the total count and one button
    per listed category with its own count; the button equal to the current
    selection is highlighted, and a click passes that button's selection on. */
module CategoryFilter {

  import opened Seqs
  import opened Types
  import opened Store
  import opened ItemList

  /** The "all" count: `Object.values(itemCounts).reduce((a, b) => a + b, 0)`. */
  function AllCount(counts: Counts): (n: nat)
    ensures forall i :: 0 <= i < |counts| ==> counts[i].1 <= n
  {
    if counts == [] then 0
    else
      assert forall i :: 0 < i < |counts| ==> counts[i] == counts[1..][i - 1];
      counts[0].1 + AllCount(counts[1..])
  }

  /** A category button's count: `itemCounts[category] || 0`. */
  function ButtonCount(counts: Counts, c: Category): (n: nat)
    ensures n <= AllCount(counts)
  {
    Lookup(counts, Label(c))
  }

  /** The buttons in display order: "all" first, then CATEGORIES. Clicking a
      button passes its selection to the change handler. */
  function Buttons(): (b: seq<Selection>)
    ensures |b| == |CATEGORIES| + 1 && b[0] == All
    ensures forall i :: 0 <= i < |CATEGORIES| ==> b[i + 1] == Only(CATEGORIES[i])
  {
    [All] + seq(|CATEGORIES|, i requires 0 <= i < |CATEGORIES| => Only(CATEGORIES[i]))
  }

  /** A button is highlighted when the selection equals its value; comparing
      the selections is the source's `===` on the strings they stand for. */
  predicate IsSelected(selected: Selection, button: Selection): (r: bool)
    ensures r <==> SelectionValue(selected) == SelectionValue(button)
  {
    if selected.Only? && button.Only? then
      LabelInjective(selected.category, button.category);
      selected == button
    else
      selected == button
  }

  lemma {:induction false} BumpAllCount(counts: Counts, key: string)
    ensures AllCount(Bump(counts, key)) == AllCount(counts) + 1
  {
    if counts != [] && counts[0].0 != key {
      BumpAllCount(counts[1..], key);
    }
  }

  lemma {:induction false} TallyAllCount(acc: Counts, items: seq<Item>)
    ensures AllCount(Tally(acc, items)) == AllCount(acc) + |items|
    decreases |items|
  {
    if items != [] {
      BumpAllCount(acc, items[0].category);
      TallyAllCount(Bump(acc, items[0].category), items[1..]);
    }
  }

  /** The "all" button shows the number of items. */
  lemma AllCountIsLength(items: seq<Item>)
    ensures AllCount(ItemCounts(items)) == |items|
  {
    TallyAllCount([], items);
  }

  /** A category button shows the number of items filed under its label, which
      is also how many cards the list shows once that button is clicked. */
  lemma ButtonCountIsShownCount(items: seq<Item>, c: Category)
    ensures ButtonCount(ItemCounts(items), c) == CountOf(items, Label(c))
    ensures ButtonCount(ItemCounts(items), c) == |Filtered(items, Only(c))|
  {
  }

  /** The category buttons' counts over `cats`, added up. */
  function SumButtonCounts(counts: Counts, cats: seq<Category>): nat
  {
    if cats == [] then 0 else ButtonCount(counts, cats[0]) + SumButtonCounts(counts, cats[1..])
  }

  /** Over distinct categories, the button counts add up to the number of items
      filed under one of them. */
  lemma {:induction false} SumButtonCountsOfDistinct(items: seq<Item>, cats: seq<Category>)
    requires Distinct(cats)
    ensures SumButtonCounts(ItemCounts(items), cats) == |Filter(InCategories(cats), items)|
  {
    if cats != [] {
      var rest := cats[1..];
      InCategoriesSplit(cats);
      SumButtonCountsOfDistinct(items, rest);
      ButtonCountIsShownCount(items, cats[0]);
      FilterSplitLength(InCategories(cats), InCategory(Label(cats[0])), InCategories(rest), items);
    }
  }

  /** The category buttons' counts add up to at most the "all" count, and to
      exactly it precisely when every stored category is one of the listed ones. */
  lemma ButtonCountsWithinAll(items: seq<Item>)
    ensures SumButtonCounts(ItemCounts(items), CATEGORIES) <= AllCount(ItemCounts(items))
    ensures SumButtonCounts(ItemCounts(items), CATEGORIES) == AllCount(ItemCounts(items)) <==>
              forall x :: x in items ==> IsCategoryLabel(x.category)
  {
    CategoriesExact();
    SumButtonCountsOfDistinct(items, CATEGORIES);
    AllCountIsLength(items);
    var p := InCategories(CATEGORIES);
    forall x ensures p(x) <==> IsCategoryLabel(x.category) {
      if IsCategoryLabel(x.category) {
        var c := FromLabel(x.category).value;
        assert c in CATEGORIES && Label(c) == x.category;
      }
    }
    if forall x :: x in items ==> IsCategoryLabel(x.category) {
      FilterKeepsAll(p, items);
    } else {
      var x :| x in items && !IsCategoryLabel(x.category);
      FilterShorter(p, items, x);
    }
  }

  /** Whatever the selection, exactly one button is highlighted. */
  lemma ExactlyOneSelected(selected: Selection)
    ensures exists i :: 0 <= i < |Buttons()| && IsSelected(selected, Buttons()[i])
    ensures forall i, j :: 0 <= i < j < |Buttons()| ==>
              !(IsSelected(selected, Buttons()[i]) && IsSelected(selected, Buttons()[j]))
  {
    var b := Buttons();
    CategoriesExact();
    match selected
    case All => assert IsSelected(selected, b[0]);
    case Only(c) =>
      assert c in CATEGORIES;
      var k :| 0 <= k < |CATEGORIES| && CATEGORIES[k] == c;
      assert IsSelected(selected, b[k + 1]);
  }

  /** Clicking a button makes that button, and no other, the highlighted one. */
  lemma ClickHighlightsThatButton(i: nat)
    requires i < |Buttons()|
    ensures forall j :: 0 <= j < |Buttons()| ==> (IsSelected(Buttons()[i], Buttons()[j]) <==> i == j)
  {
    CategoriesExact();
    ExactlyOneSelected(Buttons()[i]);
  }
}
