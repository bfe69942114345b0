/** The cart screen (`src/components/customer/Cart.tsx`): the displayed
    total, the notes validation, the checkout gate and the quantity
    stepper. */
module CartView {
  import opened Wrappers
  import opened Seqs
  import opened Text
  import opened Types
  import opened Utils
  import opened OrdersRoute
  import opened CustomerCart

  /** The displayed total: `calculateCartTotal` of the lines' prices and
      quantities. */
  function CartTotal(items: seq<CartItem>): int
  {
    CalculateCartTotal(Seqs.Map(items, PriceQuantityOf))
  }

  /** The cart shows the same total the orders route charges. */
  lemma CartTotalIsCharged(items: seq<CartItem>)
    ensures CartTotal(items) == RequestTotal(items)
    ensures CartTotal(items) == CartLinesTotal(items)
  {
    RequestTotalIsCartTotal(items);
  }

  // ---------------------------------------------------------------------------
  // Notes validation

  /** `item.notes && item.notes.trim().length < 3`: non-empty notes that are
      under three characters once trimmed. */
  predicate HasShortNotes(line: CartItem)
  {
    line.notes.Some? && line.notes.value != "" && |Trim(line.notes.value)| < 3
  }

  function ShortNotesMessage(line: CartItem): string
  {
    "\"" + line.item.name + "\" has very short special notes. Please provide more details or remove them."
  }

  /** The validation errors: one message per line with short notes, in cart
      order. */
  function ValidationErrors(items: seq<CartItem>): (r: seq<string>)
    ensures |r| == Count(items, HasShortNotes)
    ensures forall line :: line in items && HasShortNotes(line) ==> ShortNotesMessage(line) in r
    ensures forall e :: e in r ==> exists line :: line in items && HasShortNotes(line) && e == ShortNotesMessage(line)
  {
    Seqs.Map(Filter(items, HasShortNotes), ShortNotesMessage)
  }

  /** Errors of a concatenated cart are the errors of each part, in order. */
  lemma ValidationErrorsConcat(a: seq<CartItem>, b: seq<CartItem>)
    ensures ValidationErrors(a + b) == ValidationErrors(a) + ValidationErrors(b)
  {
    FilterConcat(a, b, HasShortNotes);
    var fa, fb := Filter(a, HasShortNotes), Filter(b, HasShortNotes);
    assert ValidationErrors(a + b) == Seqs.Map(fa + fb, ShortNotesMessage);
  }

  /** The cart is free of errors exactly when every line's notes are absent,
      empty, or at least three characters once trimmed. */
  lemma NoErrorsIff(items: seq<CartItem>)
    ensures |ValidationErrors(items)| == 0 <==>
      forall i :: 0 <= i < |items| ==>
        items[i].notes.None? || items[i].notes.value == "" || |Trim(items[i].notes.value)| >= 3
  {
    if |ValidationErrors(items)| == 0 {
      forall i | 0 <= i < |items| ensures !HasShortNotes(items[i]) {
        assert items[i] in items;
      }
    } else {
      var e := ValidationErrors(items)[0];
      assert e in ValidationErrors(items);
    }
  }

  // ---------------------------------------------------------------------------
  // Checkout

  /** `handleCheckout`: nothing is sent while there are validation errors;
      otherwise `onCheckout(customerNotes || undefined)`. `None` is "not
      sent", `Some(n)` is the argument passed. */
  function Checkout(items: seq<CartItem>, customerNotes: string): (r: Option<Option<string>>)
    ensures r.Some? <==> |ValidationErrors(items)| == 0
    ensures r.Some? ==> (r.value.None? <==> customerNotes == "")
    ensures r.Some? && r.value.Some? ==> r.value.value == customerNotes
  {
    if |ValidationErrors(items)| > 0 then None
    else if customerNotes == "" then Some(None)
    else Some(Some(customerNotes))
  }

  /** A cart with a short note can never be checked out. */
  lemma ShortNotesBlockCheckout(items: seq<CartItem>, i: int, customerNotes: string)
    requires 0 <= i < |items| && HasShortNotes(items[i])
    ensures Checkout(items, customerNotes).None?
  {
    assert ShortNotesMessage(items[i]) in ValidationErrors(items);
  }

  // ---------------------------------------------------------------------------
  // Quantity stepper

  const MaxQuantity: int := 50

  datatype QuantityAction = RemoveItem(id: string) | SetQuantity(id: string, quantity: int)

  /** `handleQuantityChange`: below one removes the line, above fifty is
      clamped to fifty. */
  function HandleQuantityChange(id: string, requested: int): (r: QuantityAction)
    ensures r.id == id
    ensures r.RemoveItem? <==> requested < 1
    ensures r.SetQuantity? ==> 1 <= r.quantity <= MaxQuantity
    ensures r.SetQuantity? ==> r.quantity == if requested > MaxQuantity then MaxQuantity else requested
  {
    if requested < 1 then RemoveItem(id)
    else if requested > MaxQuantity then SetQuantity(id, MaxQuantity)
    else SetQuantity(id, requested)
  }

  /** The parent's handlers applied to the action. */
  function ApplyAction(cart: seq<CartItem>, a: QuantityAction): seq<CartItem>
  {
    match a
    case RemoveItem(id) => RemoveFromCart(cart, id)
    case SetQuantity(id, q) => UpdateQuantity(cart, id, q)
  }

  /** After a stepper change the line is either gone or holds a quantity
      between 1 and 50; other lines are untouched, and ids stay unique. */
  lemma StepperKeepsQuantityInRange(cart: seq<CartItem>, id: string, requested: int)
    requires IdsUnique(cart)
    ensures var r := ApplyAction(cart, HandleQuantityChange(id, requested));
      && IdsUnique(r)
      && (requested < 1 ==> forall x :: x in r ==> x.item.id != id)
      && (forall x :: x in r && x.item.id == id ==> 1 <= x.quantity <= MaxQuantity)
      && (forall x :: x in cart && x.item.id != id ==> x in r)
  {
    var a := HandleQuantityChange(id, requested);
    var r := ApplyAction(cart, a);
    if a.RemoveItem? {
      RemoveKeepsIdsUnique(cart, id);
    } else {
      UpdateQuantityKeepsIdsUnique(cart, id, a.quantity);
      forall x | x in r && x.item.id == id ensures 1 <= x.quantity <= MaxQuantity {
        var i :| 0 <= i < |r| && r[i] == x;
      }
      forall x | x in cart && x.item.id != id ensures x in r {
        var i :| 0 <= i < |cart| && cart[i] == x;
        assert r[i] == x;
      }
    }
  }
}
