/** The admin's menu list (`src/components/admin/MenuManagement.tsx`): the
    search-and-category filter, the stock toggle's request and the local
    replace-by-id after an update. */
module MenuManagement {
  import opened Wrappers
  import opened Seqs
  import opened Text
  import opened Types
  import opened MockDatabase

  const AllCategories: string := "all"

  /** Name or description contains the search term, case-insensitively, and
      the category is "all" or the item's own. */
  predicate AdminMatches(term: string, category: string, m: MenuItem)
  {
    && (Contains(ToLower(m.name), ToLower(term)) || Contains(ToLower(m.description), ToLower(term)))
    && (category == AllCategories || m.category_id == category)
  }

  function AdminMatchesBy(term: string, category: string): MenuItem -> bool
  {
    (m: MenuItem) => AdminMatches(term, category, m)
  }

  /** `filteredItems`: the listed items the search and category keep, in
      list order; stock does not matter here. */
  function FilteredItems(items: seq<MenuItem>, term: string, category: string): (r: seq<MenuItem>)
    ensures KeepsInOrder(r, items, AdminMatchesBy(term, category))
    ensures forall x :: x in r <==> x in items && AdminMatches(term, category, x)
  {
    FilterInOrder(items, AdminMatchesBy(term, category));
    Filter(items, AdminMatchesBy(term, category))
  }

  function CategoryMatchesBy(category: string): MenuItem -> bool
  {
    (m: MenuItem) => category == AllCategories || m.category_id == category
  }

  /** An empty search term keeps every item of the selected category, in
      stock or not. */
  lemma EmptyTermKeepsCategory(items: seq<MenuItem>, category: string)
    ensures FilteredItems(items, "", category) == Filter(items, CategoryMatchesBy(category))
  {
    forall m: MenuItem ensures AdminMatches("", category, m) == CategoryMatchesBy(category)(m) {
      ContainsEmpty(ToLower(m.name));
    }
    FilterCongruent(items, AdminMatchesBy("", category), CategoryMatchesBy(category));
  }

  /** `handleToggleStock`'s request body: `{ in_stock: !item.in_stock }`. */
  function StockTogglePayload(item: MenuItem): (r: MenuItemPatch)
    ensures r.in_stock == Some(!item.in_stock)
    ensures r.name.None? && r.description.None? && r.price.None? && r.image_url.None?
  {
    MenuItemPatch(None, None, None, Some(!item.in_stock), None)
  }

  /** Sent to the store, the toggle flips the item's stock flag and changes
      nothing else about it; sending it again restores the flag. */
  lemma ToggleFlipsStock(db: MockDb, k: int)
    requires 0 <= k < |db.menuItems|
    requires forall j :: 0 <= j < |db.menuItems| && j != k ==> db.menuItems[j].id != db.menuItems[k].id
    ensures var item := db.menuItems[k];
      var (db', res) := UpdateMenuItem(db, item.id, StockTogglePayload(item));
      && res.Success?
      && db'.menuItems[k] == item.(in_stock := !item.in_stock)
      && UpdateMenuItem(db', item.id, StockTogglePayload(db'.menuItems[k])).0 == db
  {
    var item := db.menuItems[k];
    var p := (m: MenuItem) => m.id == item.id;
    assert FindIndex(db.menuItems, p) == k;
    var db' := UpdateMenuItem(db, item.id, StockTogglePayload(item)).0;
    assert FindIndex(db'.menuItems, p) == k by {
      FindIndexSamePrefix(db.menuItems, db'.menuItems, p, k);
    }
    assert db'.menuItems[k := item] == db.menuItems;
  }

  /** The `prev.map(m => m.id === id ? result.data : m)` update. */
  function ReplaceById(items: seq<MenuItem>, id: string, updated: MenuItem): (r: seq<MenuItem>)
    ensures |r| == |items|
    ensures forall i :: 0 <= i < |items| ==> r[i] == if items[i].id == id then updated else items[i]
  {
    Seqs.Map(items, (m: MenuItem) => if m.id == id then updated else m)
  }

  /** With the store's answer for the same id, the list keeps its ids in
      the same order, every other entry is untouched, and replacing again
      changes nothing. */
  lemma ReplaceKeepsShape(items: seq<MenuItem>, id: string, updated: MenuItem)
    requires updated.id == id
    ensures var r := ReplaceById(items, id, updated);
      && (forall i :: 0 <= i < |items| ==> r[i].id == items[i].id)
      && (forall i :: 0 <= i < |items| && items[i].id != id ==> r[i] == items[i])
      && ReplaceById(r, id, updated) == r
  {
  }
}
