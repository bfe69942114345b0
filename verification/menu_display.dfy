/** The customer's menu screen (`src/components/customer/MenuDisplay.tsx`):
    grouping by category, the in-stock/category/search filter and the
    quantity selector of the item dialog. */
module MenuDisplay {
  import opened Seqs
  import opened Text
  import opened Types

  /** The category selector's value meaning "every category". */
  const AllCategories: string := "all"

  function CategoryIs(id: string): MenuItem -> bool
  {
    (m: MenuItem) => m.category_id == id
  }

  function IsInStock(): MenuItem -> bool
  {
    (m: MenuItem) => m.in_stock
  }

  /** `itemsByCategory`: the reduce that pushes each item onto its
      category's list. A category is a key exactly when some item has it,
      and its list is that category's items in menu order. */
  function ItemsByCategory(items: seq<MenuItem>): (r: map<string, seq<MenuItem>>)
    ensures GroupsOf(items, r)
  {
    if |items| == 0 then map[]
    else
      var acc := ItemsByCategory(items[..|items| - 1]);
      var last := items[|items| - 1];
      var c := last.category_id;
      var r := acc[c := (if c in acc then acc[c] else []) + [last]];
      GroupStep(items, acc, r);
      r
  }

  /** `groups` holds, for every category with an item, that category's
      items in order, and nothing else. */
  ghost predicate GroupsOf(items: seq<MenuItem>, groups: map<string, seq<MenuItem>>)
  {
    && (forall c :: c in groups <==> Filter(items, CategoryIs(c)) != [])
    && (forall c :: c in groups ==> groups[c] == Filter(items, CategoryIs(c)))
  }

  lemma GroupStep(items: seq<MenuItem>, acc: map<string, seq<MenuItem>>, r: map<string, seq<MenuItem>>)
    requires |items| > 0
    requires GroupsOf(items[..|items| - 1], acc)
    requires var c := items[|items| - 1].category_id;
      r == acc[c := (if c in acc then acc[c] else []) + [items[|items| - 1]]]
    ensures GroupsOf(items, r)
  {
    var prefix, last := items[..|items| - 1], items[|items| - 1];
    assert items == prefix + [last];
    forall c ensures (c in r <==> Filter(items, CategoryIs(c)) != []) && (c in r ==> r[c] == Filter(items, CategoryIs(c))) {
      FilterSnoc(prefix, last, CategoryIs(c));
      if c == last.category_id {
        assert Filter(items, CategoryIs(c)) == Filter(prefix, CategoryIs(c)) + [last];
        assert r[c] == (if c in acc then acc[c] else []) + [last];
      } else {
        assert Filter(items, CategoryIs(c)) == Filter(prefix, CategoryIs(c));
      }
    }
  }

  /** A category has a group exactly when some item belongs to it. */
  lemma GroupKeysAreCategories(items: seq<MenuItem>, c: string)
    ensures c in ItemsByCategory(items) <==> exists i :: 0 <= i < |items| && items[i].category_id == c
  {
    var f := Filter(items, CategoryIs(c));
    if f != [] {
      assert f[0] in f;
      assert f[0] in items;
    } else {
      forall i | 0 <= i < |items| ensures items[i].category_id != c {
        assert items[i] in items;
      }
    }
  }

  /** A search query matches an item when its lowercased name or
      description contains the lowercased query. */
  predicate MatchesQuery(query: string, m: MenuItem)
  {
    Contains(ToLower(m.name), ToLower(query)) || Contains(ToLower(m.description), ToLower(query))
  }

  function QueryMatches(query: string): MenuItem -> bool
  {
    (m: MenuItem) => MatchesQuery(query, m)
  }

  /** `filteredItems`: the in-stock items of the selected category (or of
      every category), narrowed by the search query when it is non-empty. */
  function FilteredItems(items: seq<MenuItem>, category: string, query: string): (r: seq<MenuItem>)
    ensures forall x :: x in r ==> x in items && x.in_stock
    ensures category != AllCategories ==> forall x :: x in r ==> x.category_id == category
    ensures query != "" ==> forall x :: x in r ==> MatchesQuery(query, x)
  {
    var groups := ItemsByCategory(items);
    var base := if category == AllCategories then Filter(items, IsInStock())
                else Filter(if category in groups then groups[category] else [], IsInStock());
    if query == "" then base else Filter(base, QueryMatches(query))
  }

  /** The combined test the screen applies to one item. */
  predicate Shown(category: string, query: string, m: MenuItem)
  {
    m.in_stock && (category == AllCategories || m.category_id == category) && (query == "" || MatchesQuery(query, m))
  }

  function ShownBy(category: string, query: string): MenuItem -> bool
  {
    (m: MenuItem) => Shown(category, query, m)
  }

  function StockAndCategory(category: string): MenuItem -> bool
  {
    (m: MenuItem) => m.in_stock && (category == AllCategories || m.category_id == category)
  }

  /** Before the search, the screen holds the in-stock items of the selected
      category in menu order. */
  lemma BaseIsOneFilter(items: seq<MenuItem>, category: string)
    ensures FilteredItems(items, category, "") == Filter(items, StockAndCategory(category))
  {
    var groups := ItemsByCategory(items);
    if category == AllCategories {
      FilterCongruent(items, IsInStock(), StockAndCategory(category));
    } else {
      assert (if category in groups then groups[category] else []) == Filter(items, CategoryIs(category));
      FilterFilter(items, CategoryIs(category), IsInStock(), StockAndCategory(category));
    }
  }

  /** The screen shows exactly the menu items passing the combined test, in
      menu order. */
  lemma FilteredItemsIsOneFilter(items: seq<MenuItem>, category: string, query: string)
    ensures FilteredItems(items, category, query) == Filter(items, ShownBy(category, query))
  {
    BaseIsOneFilter(items, category);
    var base := Filter(items, StockAndCategory(category));
    if query == "" {
      FilterCongruent(items, StockAndCategory(category), ShownBy(category, query));
    } else {
      assert FilteredItems(items, category, query) == Filter(base, QueryMatches(query));
      FilterFilter(items, StockAndCategory(category), QueryMatches(query), ShownBy(category, query));
    }
  }

  /** The dialog's minus button: `Math.max(1, quantity - 1)`. */
  function DecrementQuantity(quantity: int): (r: int)
    ensures r >= 1
    ensures quantity > 1 ==> r == quantity - 1
    ensures quantity <= 1 ==> r == 1
  {
    if quantity - 1 > 1 then quantity - 1 else 1
  }
}
