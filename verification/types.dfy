/** The records and enumerations of the restaurant system
    (`src/types/index.ts`). Money is integer rupiah; optional TypeScript
    fields are `Option`s. */
module Types {
  import opened Wrappers
  import opened Seqs

  // ---------------------------------------------------------------------------
  // Enumerations, with the wire strings the TypeScript enums carry

  datatype OrderStatus = Pending | Confirmed | Making | Ready | Delivered | Cancelled

  datatype PaymentStatus = Unpaid | Paid | Failed | Refunded

  datatype PaymentMethod = Cash | Debit | Qris

  const AllOrderStatuses: seq<OrderStatus> :=
    [Pending, Confirmed, Making, Ready, Delivered, Cancelled]

  const AllPaymentStatuses: seq<PaymentStatus> := [Unpaid, Paid, Failed, Refunded]

  const AllPaymentMethods: seq<PaymentMethod> := [Cash, Debit, Qris]

  function OrderStatusName(s: OrderStatus): string
  {
    match s
    case Pending => "pending"
    case Confirmed => "confirmed"
    case Making => "making"
    case Ready => "ready"
    case Delivered => "delivered"
    case Cancelled => "cancelled"
  }

  /** `PaymentStatus.PENDING` is the string "pending"; the Dafny constructor
      is called `Unpaid` only to keep it apart from `OrderStatus.Pending`. */
  function PaymentStatusName(s: PaymentStatus): string
  {
    match s
    case Unpaid => "pending"
    case Paid => "paid"
    case Failed => "failed"
    case Refunded => "refunded"
  }

  function PaymentMethodName(m: PaymentMethod): string
  {
    match m
    case Cash => "cash"
    case Debit => "debit"
    case Qris => "qris"
  }

  /** The status a wire string names, if any. */
  function ParseOrderStatus(t: string): (r: Option<OrderStatus>)
    ensures r.Some? ==> OrderStatusName(r.value) == t
    ensures r.None? ==> forall s :: OrderStatusName(s) != t
  {
    if t == "pending" then Some(Pending)
    else if t == "confirmed" then Some(Confirmed)
    else if t == "making" then Some(Making)
    else if t == "ready" then Some(Ready)
    else if t == "delivered" then Some(Delivered)
    else if t == "cancelled" then Some(Cancelled)
    else None
  }

  function ParsePaymentStatus(t: string): (r: Option<PaymentStatus>)
    ensures r.Some? ==> PaymentStatusName(r.value) == t
    ensures r.None? ==> forall s :: PaymentStatusName(s) != t
  {
    if t == "pending" then Some(Unpaid)
    else if t == "paid" then Some(Paid)
    else if t == "failed" then Some(Failed)
    else if t == "refunded" then Some(Refunded)
    else None
  }

  /** `OrderStatus` has exactly the six listed values, with six distinct
      names, and parsing a name gives its value back. */
  lemma OrderStatusValues()
    ensures |AllOrderStatuses| == 6 && Distinct(AllOrderStatuses)
    ensures forall s: OrderStatus :: s in AllOrderStatuses
    ensures forall s, s' :: OrderStatusName(s) == OrderStatusName(s') ==> s == s'
    ensures forall s :: ParseOrderStatus(OrderStatusName(s)) == Some(s)
  {
    forall s: OrderStatus ensures s in AllOrderStatuses {
      match s
      case Pending => assert s == AllOrderStatuses[0];
      case Confirmed => assert s == AllOrderStatuses[1];
      case Making => assert s == AllOrderStatuses[2];
      case Ready => assert s == AllOrderStatuses[3];
      case Delivered => assert s == AllOrderStatuses[4];
      case Cancelled => assert s == AllOrderStatuses[5];
    }
  }

  /** `PaymentStatus` has exactly the four listed values. */
  lemma PaymentStatusValues()
    ensures |AllPaymentStatuses| == 4 && Distinct(AllPaymentStatuses)
    ensures forall s: PaymentStatus :: s in AllPaymentStatuses
    ensures forall s, s' :: PaymentStatusName(s) == PaymentStatusName(s') ==> s == s'
    ensures forall s :: ParsePaymentStatus(PaymentStatusName(s)) == Some(s)
  {
    forall s: PaymentStatus ensures s in AllPaymentStatuses {
      match s
      case Unpaid => assert s == AllPaymentStatuses[0];
      case Paid => assert s == AllPaymentStatuses[1];
      case Failed => assert s == AllPaymentStatuses[2];
      case Refunded => assert s == AllPaymentStatuses[3];
    }
  }

  /** `PaymentMethod` has exactly the three listed values. */
  lemma PaymentMethodValues()
    ensures |AllPaymentMethods| == 3 && Distinct(AllPaymentMethods)
    ensures forall m: PaymentMethod :: m in AllPaymentMethods
    ensures forall m, m' :: PaymentMethodName(m) == PaymentMethodName(m') ==> m == m'
  {
    forall m: PaymentMethod ensures m in AllPaymentMethods {
      match m
      case Cash => assert m == AllPaymentMethods[0];
      case Debit => assert m == AllPaymentMethods[1];
      case Qris => assert m == AllPaymentMethods[2];
    }
  }

  // ---------------------------------------------------------------------------
  // Records

  /** An ISO-8601 timestamp string together with the epoch milliseconds it
      denotes (what `new Date(text).getTime()` returns). */
  datatype Timestamp = Timestamp(text: string, millis: int)

  datatype Table = Table(id: string, code: string, name: string, active: bool)

  datatype Category = Category(id: string, name: string, description: string, sort_order: int)

  datatype MenuItem = MenuItem(
    id: string,
    category_id: string,
    name: string,
    description: string,
    image_url: Option<string>,
    price: int,
    in_stock: bool,
    category: Option<Category>)

  /** A menu item in the cart with its quantity and optional notes. */
  datatype CartItem = CartItem(item: MenuItem, quantity: int, notes: Option<string>)

  /** One line of an order: a snapshot of the item's price at order time. */
  datatype OrderItem = OrderItem(
    id: string,
    order_id: string,
    item_id: string,
    item: Option<MenuItem>,
    quantity: int,
    price: int,
    notes: Option<string>)

  datatype Order = Order(
    id: string,
    code: string,
    table_id: string,
    table: Option<Table>,
    status: OrderStatus,
    total: int,
    payment_status: PaymentStatus,
    payment_method: Option<PaymentMethod>,
    customer_notes: Option<string>,
    order_items: Option<seq<OrderItem>>,
    created_at: Timestamp,
    updated_at: Timestamp)

  /** An append-only kitchen audit record, as inserted (the store assigns the
      id and the timestamp). */
  datatype KdsEvent = KdsEvent(order_id: string, status: OrderStatus, notes: string)

  /** `UpdateOrder`: a patch that may carry only the status, the payment
      status and the payment method; `None` leaves a field as it is. */
  datatype UpdateOrder = UpdateOrder(
    status: Option<OrderStatus>,
    payment_status: Option<PaymentStatus>,
    payment_method: Option<PaymentMethod>)

  /** One entry of `popular_items`, with the field names the reports route
      emits. */
  datatype PopularItem = PopularItem(item: Option<MenuItem>, quantity: int, revenue: int)

  datatype DailySale = DailySale(date: string, orders: nat, revenue: int)

  datatype SalesReport = SalesReport(
    total_orders: nat,
    total_revenue: int,
    orders_by_status: map<OrderStatus, nat>,
    popular_items: seq<PopularItem>,
    daily_sales: seq<DailySale>)

  // ---------------------------------------------------------------------------
  // Sums over records

  /** `Σ item.price × quantity` over cart lines. */
  function CartLinesTotal(items: seq<CartItem>): int
  {
    if |items| == 0 then 0
    else
      var last := items[|items| - 1];
      CartLinesTotal(items[..|items| - 1]) + last.item.price * last.quantity
  }

  /** `Σ total` over orders. */
  function SumTotals(orders: seq<Order>): int
  {
    if |orders| == 0 then 0
    else SumTotals(orders[..|orders| - 1]) + orders[|orders| - 1].total
  }

  /** Summing distributes over concatenation. */
  lemma {:induction false} SumTotalsConcat(a: seq<Order>, b: seq<Order>)
    decreases |b|
    ensures SumTotals(a + b) == SumTotals(a) + SumTotals(b)
  {
    if |b| == 0 {
      assert a + b == a;
    } else {
      var b', y := b[..|b| - 1], b[|b| - 1];
      assert a + b == (a + b') + [y];
      assert (a + b)[..|a + b| - 1] == a + b';
      SumTotalsConcat(a, b');
    }
  }

  /** The sum does not depend on the order of the orders. */
  lemma {:induction false} SumTotalsPermutation(a: seq<Order>, b: seq<Order>)
    requires multiset(a) == multiset(b)
    decreases |a|
    ensures SumTotals(a) == SumTotals(b)
  {
    if |a| == 0 {
      assert |b| == |multiset(b)| == 0;
    } else {
      var x := a[|a| - 1];
      assert x in multiset(b);
      var j :| 0 <= j < |b| && b[j] == x;
      var a', b' := a[..|a| - 1], b[..j] + b[j + 1..];
      assert a == a' + [x];
      assert b == b[..j] + [x] + b[j + 1..];
      assert multiset(a') == multiset(b') by {
        calc {
          multiset(a') + multiset{x};
          multiset(a);
          multiset(b);
          multiset(b[..j]) + multiset{x} + multiset(b[j + 1..]);
          multiset(b') + multiset{x};
        }
        assert multiset(a') == (multiset(a') + multiset{x}) - multiset{x};
        assert multiset(b') == (multiset(b') + multiset{x}) - multiset{x};
      }
      SumTotalsPermutation(a', b');
      SumTotalsConcat(b[..j] + [x], b[j + 1..]);
      SumTotalsConcat(b[..j], [x]);
      SumTotalsConcat(b[..j], b[j + 1..]);
      assert SumTotals([x]) == x.total by {
        assert [x][..0] == [];
      }
    }
  }

  /** An order's creation instant, the key of every `created_at` sort. */
  function CreatedMillis(o: Order): int
  {
    o.created_at.millis
  }
}
