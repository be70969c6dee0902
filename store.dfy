/** The list transforms inside the registry's handlers and the derived
    aggregates (per-category counts, total value, priced-item count). */
module Store {

  import opened Seqs
  import opened Types

  /** No two items share an id. */
  ghost predicate UniqueIds(items: seq<Item>)
  {
    forall i, j :: 0 <= i < j < |items| ==> items[i].id != items[j].id
  }

  /** Some item carries the id. */
  predicate HasId(items: seq<Item>, id: string)
  {
    exists x :: x in items && x.id == id
  }

  // ---------------------------------------------------------------- add

  /** Prepending a new item under a fresh id keeps the ids unique. */
  lemma AddKeepsUniqueIds(items: seq<Item>, d: Draft, id: string, createdAt: int)
    requires UniqueIds(items)
    requires !HasId(items, id)
    ensures UniqueIds([NewItem(d, id, createdAt)] + items)
  {
    var r := [NewItem(d, id, createdAt)] + items;
    forall i, j | 0 <= i < j < |r| ensures r[i].id != r[j].id {
      if i == 0 {
        assert r[j] == items[j - 1];
      } else {
        assert r[i] == items[i - 1] && r[j] == items[j - 1];
      }
    }
  }

  // ---------------------------------------------------------------- delete

  function IdIsNot(id: string): Item -> bool
  {
    (x: Item) => x.id != id
  }

  /** `items.filter(item => item.id !== id)`. */
  function RemoveId(items: seq<Item>, id: string): (r: seq<Item>)
    ensures !HasId(r, id)
    ensures forall x :: x in r <==> x in items && x.id != id
    ensures !HasId(items, id) ==> r == items
  {
    var r := Filter(IdIsNot(id), items);
    if !HasId(items, id) then
      FilterKeepsAll(IdIsNot(id), items);
      r
    else
      r
  }

  /** Deleting keeps every other item, as often as it occurred, in its original order. */
  lemma RemoveIdKeepsOthers(items: seq<Item>, id: string)
    ensures IsSubsequence(RemoveId(items, id), items)
    ensures forall x: Item :: x.id != id ==> multiset(RemoveId(items, id))[x] == multiset(items)[x]
  {
    FilterIsSubsequence(IdIsNot(id), items);
  }

  /** A list headed by `a` has unique ids exactly when its tail has and `a`'s id is new to it. */
  lemma UniqueCons(a: Item, s: seq<Item>)
    ensures UniqueIds([a] + s) <==> UniqueIds(s) && !HasId(s, a.id)
  {
    var r := [a] + s;
    if UniqueIds(r) {
      forall i, j | 0 <= i < j < |s| ensures s[i].id != s[j].id {
        assert s[i] == r[i + 1] && s[j] == r[j + 1];
      }
      assert UniqueIds(s);
      forall x | x in s ensures x.id != a.id {
        var k :| 0 <= k < |s| && s[k] == x;
        assert r[k + 1] == x && r[0] == a;
      }
    }
    if UniqueIds(s) && !HasId(s, a.id) {
      forall i, j | 0 <= i < j < |r| ensures r[i].id != r[j].id {
        assert r[j] == s[j - 1] && s[j - 1] in s;
        if i > 0 {
          assert r[i] == s[i - 1];
        } else {
          assert r[i] == a;
        }
      }
      assert UniqueIds(r);
    }
  }

  /** With unique ids, deleting a present id removes exactly one item. */
  lemma {:induction false} RemovePresentId(items: seq<Item>, id: string)
    requires UniqueIds(items)
    requires HasId(items, id)
    ensures |RemoveId(items, id)| == |items| - 1
  {
    var rest := items[1..];
    assert items == [items[0]] + rest;
    UniqueCons(items[0], rest);
    if items[0].id == id {
      assert RemoveId(items, id) == RemoveId(rest, id) == rest;
    } else {
      var x :| x in items && x.id == id;
      assert x in rest;
      RemovePresentId(rest, id);
      assert RemoveId(items, id) == [items[0]] + RemoveId(rest, id);
    }
  }

  /** Deleting keeps the ids unique. */
  lemma {:induction false} RemoveKeepsUniqueIds(items: seq<Item>, id: string)
    requires UniqueIds(items)
    ensures UniqueIds(RemoveId(items, id))
  {
    if items != [] {
      var rest := items[1..];
      assert items == [items[0]] + rest;
      UniqueCons(items[0], rest);
      RemoveKeepsUniqueIds(rest, id);
      if items[0].id == id {
        assert RemoveId(items, id) == RemoveId(rest, id);
      } else {
        assert RemoveId(items, id) == [items[0]] + RemoveId(rest, id);
        UniqueCons(items[0], RemoveId(rest, id));
      }
    }
  }

  // ---------------------------------------------------------------- find

  /** `items.find(item => item.id === id)`: the first item with the id, if any. */
  function FindById(items: seq<Item>, id: string): (r: Option<Item>)
    ensures r.None? <==> !HasId(items, id)
    ensures r.Some? ==> exists k :: 0 <= k < |items| && items[k] == r.value && r.value.id == id &&
                                   forall j :: 0 <= j < k ==> items[j].id != id
  {
    if items == [] then None
    else if items[0].id == id then Some(items[0])
    else
      var r := FindById(items[1..], id);
      assert items == [items[0]] + items[1..];
      if r.Some? then
        var k :| 0 <= k < |items[1..]| && items[1..][k] == r.value && r.value.id == id &&
                 forall j :: 0 <= j < k ==> items[1..][j].id != id;
        assert items[k + 1] == r.value;
        r
      else
        r
  }

  /** With unique ids, looking up a listed record's id finds that record. */
  lemma UniqueFind(items: seq<Item>, k: nat)
    requires UniqueIds(items)
    requires k < |items|
    ensures FindById(items, items[k].id) == Some(items[k])
  {
    assert items[k] in items;
  }

  // ---------------------------------------------------------------- update

  /** `items.map(item => item.id === editing.id ? { ...editing, ...draft } : item)`. */
  function ReplaceEditing(items: seq<Item>, editing: Item, d: Draft): (r: seq<Item>)
    ensures |r| == |items|
    ensures forall i :: 0 <= i < |items| ==> r[i].id == items[i].id
    ensures forall i :: 0 <= i < |items| && items[i].id == editing.id ==> r[i] == Overlay(editing, d)
    ensures forall i :: 0 <= i < |items| && items[i].id != editing.id ==> r[i] == items[i]
  {
    if items == [] then []
    else
      var head := if items[0].id == editing.id then Overlay(editing, d) else items[0];
      [head] + ReplaceEditing(items[1..], editing, d)
  }

  /** Updating keeps the ids unique, and the record that was chosen for editing
      keeps its creation time while taking every draft field. */
  lemma UpdateKeepsIdentity(items: seq<Item>, k: nat, d: Draft)
    requires UniqueIds(items)
    requires k < |items|
    ensures UniqueIds(ReplaceEditing(items, items[k], d))
    ensures ReplaceEditing(items, items[k], d)[k].createdAt == items[k].createdAt
    ensures DraftOf(ReplaceEditing(items, items[k], d)[k]) == d
    ensures forall i :: 0 <= i < |items| && i != k ==> ReplaceEditing(items, items[k], d)[i] == items[i]
  {
  }

  // ---------------------------------------------------------------- aggregates

  /** `items.reduce((sum, item) => sum + item.price, 0)` with exact arithmetic. */
  function TotalValue(items: seq<Item>): (total: int)
    ensures (forall x :: x in items ==> x.price >= 0) ==> total >= 0
  {
    if items == [] then 0 else items[0].price + TotalValue(items[1..])
  }

  /** `item.category === category`. */
  function InCategory(category: string): Item -> bool
  {
    (x: Item) => x.category == category
  }

  /** The item's category is the label of one of `cats`. */
  function InCategories(cats: seq<Category>): Item -> bool
  {
    (x: Item) => exists c :: c in cats && Label(c) == x.category
  }

  /** Membership in a list of distinct categories splits into its head and its
      tail, which never share a label. */
  lemma InCategoriesSplit(cats: seq<Category>)
    requires Distinct(cats) && cats != []
    ensures Distinct(cats[1..])
    ensures forall x: Item :: InCategories(cats)(x) <==> InCategory(Label(cats[0]))(x) || InCategories(cats[1..])(x)
    ensures forall x: Item :: !(InCategory(Label(cats[0]))(x) && InCategories(cats[1..])(x))
  {
    var rest := cats[1..];
    forall i, j | 0 <= i < j < |rest| ensures rest[i] != rest[j] {
      assert rest[i] == cats[i + 1] && rest[j] == cats[j + 1];
    }
    forall x: Item ensures InCategories(cats)(x) <==> InCategory(Label(cats[0]))(x) || InCategories(rest)(x) {
      if InCategories(cats)(x) {
        var c :| c in cats && Label(c) == x.category;
        if c != cats[0] {
          assert c in rest;
        }
      }
    }
    forall x: Item ensures !(InCategory(Label(cats[0]))(x) && InCategories(rest)(x)) {
      if InCategory(Label(cats[0]))(x) && InCategories(rest)(x) {
        var c :| c in rest && Label(c) == x.category;
        var k :| 0 <= k < |rest| && rest[k] == c;
        assert cats[k + 1] == c;
        LabelInjective(c, cats[0]);
      }
    }
  }

  /** The number of items whose category is exactly `category`. */
  function CountOf(items: seq<Item>, category: string): nat
  {
    |Filter(InCategory(category), items)|
  }

  /** `item.price > 0`: an item with a zero price counts as not yet planned. */
  function IsPlanned(): Item -> bool
  {
    (x: Item) => x.price > 0
  }

  /** `items.filter(item => item.price > 0).length`. */
  function PlannedItems(items: seq<Item>): (n: nat)
    ensures n <= |items|
    ensures n == |items| <==> forall x :: x in items ==> x.price > 0
  {
    var r := Filter(IsPlanned(), items);
    if forall x :: x in items ==> x.price > 0 then
      FilterKeepsAll(IsPlanned(), items);
      |r|
    else
      var x :| x in items && x.price <= 0;
      FilterShorter(IsPlanned(), items, x);
      |r|
  }

  /** Dropping an element that fails the predicate makes the result strictly shorter. */
  lemma {:induction false} FilterShorter<T(!new)>(p: T -> bool, s: seq<T>, x: T)
    requires x in s && !p(x)
    ensures |Filter(p, s)| < |s|
  {
    if s[0] != x {
      FilterShorter(p, s[1..], x);
    }
  }

  /** The total over the items kept by `p` splits over two exclusive predicates that cover it. */
  lemma {:induction false} TotalValueSplit(p: Item -> bool, q: Item -> bool, r: Item -> bool, s: seq<Item>)
    requires forall x :: p(x) <==> q(x) || r(x)
    requires forall x :: !(q(x) && r(x))
    ensures TotalValue(Filter(p, s)) == TotalValue(Filter(q, s)) + TotalValue(Filter(r, s))
  {
    if s != [] {
      TotalValueSplit(p, q, r, s[1..]);
    }
  }

  /** With no negative prices, the total over any selection of the items lies
      between zero and the total over all of them. */
  lemma {:induction false} TotalValueOfFilter(p: Item -> bool, s: seq<Item>)
    requires forall x :: x in s ==> x.price >= 0
    ensures 0 <= TotalValue(Filter(p, s)) <= TotalValue(s)
  {
    if s != [] {
      assert forall x :: x in s[1..] ==> x in s;
      TotalValueOfFilter(p, s[1..]);
    }
  }

  /** Adding an item raises its category's count by one, the total by its price,
      and the priced count by one exactly when its price is positive. */
  lemma AddUpdatesAggregates(items: seq<Item>, x: Item)
    ensures forall c :: CountOf([x] + items, c) == CountOf(items, c) + (if x.category == c then 1 else 0)
    ensures TotalValue([x] + items) == TotalValue(items) + x.price
    ensures PlannedItems([x] + items) == PlannedItems(items) + (if x.price > 0 then 1 else 0)
  {
    assert ([x] + items)[1..] == items;
  }

  // ---------------------------------------------------------------- itemCounts

  /** A string-keyed JavaScript object, as its entries in insertion order
      (the order `Object.values` reports them in). */
  type Counts = seq<(string, nat)>

  /** The keys present in the record. */
  function KeySet(counts: Counts): set<string>
  {
    set e | e in counts :: e.0
  }

  /** No key is stored twice. */
  predicate DistinctKeys(counts: Counts)
  {
    forall i, j :: 0 <= i < j < |counts| ==> counts[i].0 != counts[j].0
  }

  /** Every key of `before` is still in `after`, at the same place. */
  predicate KeepsKeyOrder(before: Counts, after: Counts)
  {
    |before| <= |after| && forall i :: 0 <= i < |before| ==> after[i].0 == before[i].0
  }

  /** `counts[key] || 0`. */
  function Lookup(counts: Counts, key: string): (n: nat)
    ensures key !in KeySet(counts) ==> n == 0
    ensures n == 0 || (key, n) in counts
  {
    if counts == [] then 0
    else if counts[0].0 == key then counts[0].1
    else Lookup(counts[1..], key)
  }

  /** `acc[key] = (acc[key] || 0) + 1`: an existing key keeps its place, a new one goes last. */
  function Bump(counts: Counts, key: string): (r: Counts)
    ensures |counts| <= |r| <= |counts| + 1
    ensures |r| == |counts| + 1 ==> r[|counts|] == (key, 1)
  {
    if counts == [] then [(key, 1)]
    else if counts[0].0 == key then [(key, counts[0].1 + 1)] + counts[1..]
    else [counts[0]] + Bump(counts[1..], key)
  }

  /** The reduce loop over the items, starting from `acc`. */
  function Tally(acc: Counts, items: seq<Item>): (r: Counts)
    ensures |acc| <= |r| <= |acc| + |items|
    decreases |items|
  {
    if items == [] then acc else Tally(Bump(acc, items[0].category), items[1..])
  }

  /** The `itemCounts` record of the registry's memo: the entry for a category
      is the number of items filed under it, and its keys are exactly the
      categories that occur, each stored once. */
  function ItemCounts(items: seq<Item>): (counts: Counts)
    ensures forall k :: Lookup(counts, k) == CountOf(items, k)
    ensures DistinctKeys(counts)
    ensures KeySet(counts) == set x | x in items :: x.category
  {
    forall k ensures Lookup(Tally([], items), k) == CountOf(items, k) {
      TallyLookup([], items, k);
    }
    TallyKeys([], items);
    Tally([], items)
  }

  lemma {:induction false} BumpLookup(counts: Counts, key: string, k: string)
    ensures Lookup(Bump(counts, key), k) == Lookup(counts, k) + (if k == key then 1 else 0)
  {
    if counts != [] && counts[0].0 != key {
      BumpLookup(counts[1..], key, k);
    }
  }

  /** An increment keeps every existing key where it was. */
  lemma {:induction false} BumpKeepsKeyOrder(counts: Counts, key: string)
    ensures KeepsKeyOrder(counts, Bump(counts, key))
  {
    if counts != [] && counts[0].0 != key {
      BumpKeepsKeyOrder(counts[1..], key);
    }
  }

  /** The reduce keeps the starting record's keys where they were, so keys
      appear in the order their categories first occur. */
  lemma {:induction false} TallyKeepsKeyOrder(acc: Counts, items: seq<Item>)
    ensures KeepsKeyOrder(acc, Tally(acc, items))
    decreases |items|
  {
    if items != [] {
      BumpKeepsKeyOrder(acc, items[0].category);
      TallyKeepsKeyOrder(Bump(acc, items[0].category), items[1..]);
    }
  }

  lemma DistinctKeysCons(a: (string, nat), s: Counts)
    ensures KeySet([a] + s) == {a.0} + KeySet(s)
    ensures DistinctKeys([a] + s) <==> DistinctKeys(s) && a.0 !in KeySet(s)
  {
    var r := [a] + s;
    assert forall e :: e in r <==> e == a || e in s;
    if DistinctKeys(r) {
      forall i, j | 0 <= i < j < |s| ensures s[i].0 != s[j].0 {
        assert s[i] == r[i + 1] && s[j] == r[j + 1];
      }
      assert DistinctKeys(s);
      forall e | e in s ensures e.0 != a.0 {
        var k :| 0 <= k < |s| && s[k] == e;
        assert r[k + 1] == e && r[0] == a;
      }
    }
    if DistinctKeys(s) && a.0 !in KeySet(s) {
      forall i, j | 0 <= i < j < |r| ensures r[i].0 != r[j].0 {
        assert r[j] == s[j - 1] && s[j - 1] in s;
        if i > 0 {
          assert r[i] == s[i - 1];
        } else {
          assert r[i] == a;
        }
      }
      assert DistinctKeys(r);
    }
  }

  lemma {:induction false} BumpKeys(counts: Counts, key: string)
    requires DistinctKeys(counts)
    ensures DistinctKeys(Bump(counts, key))
    ensures KeySet(Bump(counts, key)) == KeySet(counts) + {key}
  {
    if counts == [] {
      assert Bump(counts, key) == [(key, 1)];
      DistinctKeysCons((key, 1), []);
    } else {
      var rest := counts[1..];
      assert counts == [counts[0]] + rest;
      DistinctKeysCons(counts[0], rest);
      if counts[0].0 == key {
        DistinctKeysCons((key, counts[0].1 + 1), rest);
      } else {
        BumpKeys(rest, key);
        DistinctKeysCons(counts[0], Bump(rest, key));
      }
    }
  }

  lemma {:induction false} TallyLookup(acc: Counts, items: seq<Item>, k: string)
    ensures Lookup(Tally(acc, items), k) == Lookup(acc, k) + CountOf(items, k)
    decreases |items|
  {
    if items != [] {
      BumpLookup(acc, items[0].category, k);
      TallyLookup(Bump(acc, items[0].category), items[1..], k);
      assert items == [items[0]] + items[1..];
    }
  }

  lemma {:induction false} TallyKeys(acc: Counts, items: seq<Item>)
    requires DistinctKeys(acc)
    ensures DistinctKeys(Tally(acc, items))
    ensures KeySet(Tally(acc, items)) == KeySet(acc) + set x | x in items :: x.category
    decreases |items|
  {
    if items != [] {
      var next := Bump(acc, items[0].category);
      BumpKeys(acc, items[0].category);
      TallyKeys(next, items[1..]);
      assert Tally(acc, items) == Tally(next, items[1..]);
      assert items == [items[0]] + items[1..];
      assert (set x | x in items :: x.category) == {items[0].category} + set x | x in items[1..] :: x.category;
    }
  }
}
