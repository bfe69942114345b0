/** The customer's cart (`src/components/customer/CustomerInterface.tsx`): a
    sequence of cart lines keyed by menu-item id, changed only by the four
    handlers below. */
module CustomerCart {
  import opened Wrappers
  import opened Seqs
  import opened Types

  /** No two lines share a menu-item id. */
  predicate IdsUnique(cart: seq<CartItem>)
  {
    forall i, j :: 0 <= i < j < |cart| ==> cart[i].item.id != cart[j].item.id
  }

  function HasItemId(id: string): CartItem -> bool
  {
    (line: CartItem) => line.item.id == id
  }

  function LacksItemId(id: string): CartItem -> bool
  {
    (line: CartItem) => line.item.id != id
  }

  /** `notes || existing.notes`: new notes win unless they are absent or
      empty. */
  function MergeNotes(incoming: Option<string>, existing: Option<string>): (r: Option<string>)
    ensures incoming.Some? && incoming.value != "" ==> r == incoming
    ensures incoming.None? || incoming.value == "" ==> r == existing
  {
    if incoming.Some? && incoming.value != "" then incoming else existing
  }

  /** `handleAddToCart`: the first line with the item's id gains `quantity`
      and merges the notes; without such a line a new one is appended. */
  function AddToCart(cart: seq<CartItem>, item: MenuItem, quantity: int, notes: Option<string>): (r: seq<CartItem>)
    ensures FindIndex(cart, HasItemId(item.id)) == -1 ==> r == cart + [CartItem(item, quantity, notes)]
    ensures var k := FindIndex(cart, HasItemId(item.id));
      k >= 0 ==>
        && |r| == |cart|
        && r[k] == cart[k].(quantity := cart[k].quantity + quantity, notes := MergeNotes(notes, cart[k].notes))
        && forall i :: 0 <= i < |cart| && i != k ==> r[i] == cart[i]
  {
    var k := FindIndex(cart, HasItemId(item.id));
    if k >= 0 then
      cart[k := cart[k].(quantity := cart[k].quantity + quantity, notes := MergeNotes(notes, cart[k].notes))]
    else
      cart + [CartItem(item, quantity, notes)]
  }

  /** `handleRemoveFromCart`: every line with the id goes, the rest stay in
      order. */
  function RemoveFromCart(cart: seq<CartItem>, id: string): (r: seq<CartItem>)
    ensures forall x :: x in r <==> x in cart && x.item.id != id
    ensures |r| <= |cart|
  {
    Filter(cart, LacksItemId(id))
  }

  /** `handleUpdateCartQuantity`: a quantity of zero or less removes the
      line; otherwise every line with the id takes the new quantity. */
  function UpdateQuantity(cart: seq<CartItem>, id: string, quantity: int): (r: seq<CartItem>)
    ensures quantity <= 0 ==> r == RemoveFromCart(cart, id)
    ensures quantity > 0 ==>
      && |r| == |cart|
      && forall i :: 0 <= i < |cart| ==>
           r[i] == if cart[i].item.id == id then cart[i].(quantity := quantity) else cart[i]
  {
    if quantity <= 0 then RemoveFromCart(cart, id)
    else Seqs.Map(cart, (line: CartItem) => if line.item.id == id then line.(quantity := quantity) else line)
  }

  /** `handleUpdateCartNotes`: every line with the id takes the notes. */
  function UpdateNotes(cart: seq<CartItem>, id: string, notes: string): (r: seq<CartItem>)
    ensures |r| == |cart|
    ensures forall i :: 0 <= i < |cart| ==>
      r[i] == if cart[i].item.id == id then cart[i].(notes := Some(notes)) else cart[i]
  {
    Seqs.Map(cart, (line: CartItem) => if line.item.id == id then line.(notes := Some(notes)) else line)
  }

  /** The badge: `Σ quantity` over the lines. */
  function ItemCount(cart: seq<CartItem>): int
  {
    if |cart| == 0 then 0 else ItemCount(cart[..|cart| - 1]) + cart[|cart| - 1].quantity
  }

  // ---------------------------------------------------------------------------
  // Ids stay unique

  /** Lines with unchanged ids keep ids unique. */
  lemma SameIdsKeepUnique(cart: seq<CartItem>, r: seq<CartItem>)
    requires IdsUnique(cart) && |r| == |cart|
    requires forall i :: 0 <= i < |cart| ==> r[i].item.id == cart[i].item.id
    ensures IdsUnique(r)
  {
  }

  lemma AddKeepsIdsUnique(cart: seq<CartItem>, item: MenuItem, quantity: int, notes: Option<string>)
    requires IdsUnique(cart)
    ensures IdsUnique(AddToCart(cart, item, quantity, notes))
  {
    var r := AddToCart(cart, item, quantity, notes);
    if FindIndex(cart, HasItemId(item.id)) >= 0 {
      SameIdsKeepUnique(cart, r);
    } else {
      forall i, j | 0 <= i < j < |r| ensures r[i].item.id != r[j].item.id {
        assert r[i] == cart[i];
        if j < |cart| {
          assert r[j] == cart[j];
        } else {
          assert !HasItemId(item.id)(cart[i]);
        }
      }
    }
  }

  /** A subsequence of a cart with unique ids has unique ids. */
  lemma {:induction false} FilterKeepsIdsUnique(cart: seq<CartItem>, p: CartItem -> bool)
    requires IdsUnique(cart)
    ensures IdsUnique(Filter(cart, p))
  {
    if |cart| > 0 {
      var rest := Filter(cart[1..], p);
      FilterKeepsIdsUnique(cart[1..], p);
      if p(cart[0]) {
        var r := [cart[0]] + rest;
        forall i, j | 0 <= i < j < |r| ensures r[i].item.id != r[j].item.id {
          if i == 0 {
            assert r[j] in cart[1..];
            var k :| 0 <= k < |cart[1..]| && cart[1..][k] == r[j];
            assert cart[1..][k] == cart[k + 1];
          } else {
            assert r[i] == rest[i - 1] && r[j] == rest[j - 1];
          }
        }
      }
    }
  }

  lemma RemoveKeepsIdsUnique(cart: seq<CartItem>, id: string)
    requires IdsUnique(cart)
    ensures IdsUnique(RemoveFromCart(cart, id))
  {
    FilterKeepsIdsUnique(cart, LacksItemId(id));
  }

  lemma UpdateQuantityKeepsIdsUnique(cart: seq<CartItem>, id: string, quantity: int)
    requires IdsUnique(cart)
    ensures IdsUnique(UpdateQuantity(cart, id, quantity))
  {
    if quantity <= 0 {
      RemoveKeepsIdsUnique(cart, id);
    } else {
      SameIdsKeepUnique(cart, UpdateQuantity(cart, id, quantity));
    }
  }

  lemma UpdateNotesKeepsIdsUnique(cart: seq<CartItem>, id: string, notes: string)
    requires IdsUnique(cart)
    ensures IdsUnique(UpdateNotes(cart, id, notes))
  {
    SameIdsKeepUnique(cart, UpdateNotes(cart, id, notes));
  }

  // ---------------------------------------------------------------------------
  // Removal and the badge

  /** With unique ids, removing an item present at `i` cuts out exactly that
      line and keeps the others in order; removing an absent id changes
      nothing. */
  lemma RemoveCutsOut(cart: seq<CartItem>, id: string)
    requires IdsUnique(cart)
    ensures var k := FindIndex(cart, HasItemId(id));
      && (k == -1 ==> RemoveFromCart(cart, id) == cart)
      && (k >= 0 ==> RemoveFromCart(cart, id) == cart[..k] + cart[k + 1..])
  {
    var k := FindIndex(cart, HasItemId(id));
    if k == -1 {
      FilterKeepsAll(cart, LacksItemId(id));
    } else {
      FilterRemovesOne(cart, LacksItemId(id), k);
    }
  }

  /** Changing one line changes the badge by that line's difference. */
  lemma {:induction false} ItemCountUpdate(cart: seq<CartItem>, k: int, line: CartItem)
    requires 0 <= k < |cart|
    ensures ItemCount(cart[k := line]) == ItemCount(cart) - cart[k].quantity + line.quantity
  {
    var n := |cart| - 1;
    if k < n {
      ItemCountUpdate(cart[..n], k, line);
      assert cart[k := line][..n] == cart[..n][k := line];
    } else {
      assert cart[k := line][..n] == cart[..n];
    }
  }

  /** Adding `quantity` of an item raises the badge by `quantity`, whether
      the line is merged or appended. */
  lemma AddRaisesItemCount(cart: seq<CartItem>, item: MenuItem, quantity: int, notes: Option<string>)
    ensures ItemCount(AddToCart(cart, item, quantity, notes)) == ItemCount(cart) + quantity
  {
    var k := FindIndex(cart, HasItemId(item.id));
    if k >= 0 {
      ItemCountUpdate(cart, k, cart[k].(quantity := cart[k].quantity + quantity, notes := MergeNotes(notes, cart[k].notes)));
    } else {
      assert (cart + [CartItem(item, quantity, notes)])[..|cart|] == cart;
    }
  }

  /** Adding an item already in the cart keeps the number of lines. */
  lemma MergeKeepsLength(cart: seq<CartItem>, item: MenuItem, quantity: int, notes: Option<string>)
    requires exists i :: 0 <= i < |cart| && cart[i].item.id == item.id
    ensures |AddToCart(cart, item, quantity, notes)| == |cart|
  {
    var i :| 0 <= i < |cart| && cart[i].item.id == item.id;
    assert HasItemId(item.id)(cart[i]);
  }
}
