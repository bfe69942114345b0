/** The in-memory store of `src/lib/mock-database.ts`: the fixed tables and
    categories, the menu items, and the order and order-item lists that
    `createOrder` appends to and `updateOrder` rewrites. The store is a value
    threaded through the operations; the clock and the random order code are
    parameters. */
module MockDatabase {
  import opened Wrappers
  import opened Text
  import opened Seqs
  import opened Types
  import opened Reports

  // ---------------------------------------------------------------------------
  // Fixed catalogue data

  const MockTables: seq<Table> := [
    Table("1", "T01", "Table 1", true),
    Table("2", "T02", "Table 2", true),
    Table("3", "T03", "Table 3", true),
    Table("4", "T04", "Table 4", true),
    Table("5", "T05", "Table 5", true)
  ]

  const MockCategories: seq<Category> := [
    Category("1", "Appetizers", "Start your meal with our delicious appetizers", 1),
    Category("2", "Main Course", "Hearty main dishes to satisfy your hunger", 2),
    Category("3", "Beverages", "Refreshing drinks and traditional beverages", 3),
    Category("4", "Desserts", "Sweet treats to end your meal perfectly", 4)
  ]

  const InitialMenuItems: seq<MenuItem> := [
    MenuItem("1", "1", "Spring Rolls", "Crispy vegetable spring rolls served with sweet and sour sauce",
      Some("/images/spring-rolls.jpg"), 8500, true, None),
    MenuItem("2", "1", "Chicken Wings", "Spicy buffalo chicken wings with ranch dressing",
      Some("/images/chicken-wings.jpg"), 12000, true, None),
    MenuItem("3", "2", "Nasi Goreng", "Traditional Indonesian fried rice with chicken and vegetables",
      Some("/images/nasi-goreng.jpg"), 15000, true, None),
    MenuItem("4", "2", "Beef Rendang", "Slow-cooked beef in rich coconut curry sauce",
      Some("/images/beef-rendang.jpg"), 18500, true, None),
    MenuItem("5", "3", "Fresh Orange Juice", "Freshly squeezed orange juice",
      Some("/images/orange-juice.jpg"), 5000, true, None),
    MenuItem("6", "4", "Chocolate Cake", "Rich chocolate cake with vanilla ice cream",
      Some("/images/chocolate-cake.jpg"), 8000, true, None)
  ]

  /** The mutable part of the mock store. */
  datatype MockDb = MockDb(orders: seq<Order>, orderItems: seq<OrderItem>, menuItems: seq<MenuItem>)

  const InitialDb: MockDb := MockDb([], [], InitialMenuItems)

  /** An error as the mock store reports it: a message and an optional code. */
  datatype DbError = DbError(message: string, code: Option<string>)

  // ---------------------------------------------------------------------------
  // Lookups

  /** `mockTables.find(t => t.id === id)`; an absent id finds nothing. */
  function FindTableById(id: Option<string>): (r: Option<Table>)
    ensures r.Some? <==> id.Some? && exists i :: 0 <= i < |MockTables| && MockTables[i].id == id.value
    ensures r.Some? ==> r.value in MockTables && r.value.id == id.value
  {
    if id.None? then None
    else
      var k := FindIndex(MockTables, (t: Table) => t.id == id.value);
      if k == -1 then None else Some(MockTables[k])
  }

  function FindCategory(id: string): (r: Option<Category>)
    ensures r.Some? ==> r.value in MockCategories && r.value.id == id
    ensures r.None? ==> forall c :: c in MockCategories ==> c.id != id
  {
    var k := FindIndex(MockCategories, (c: Category) => c.id == id);
    if k == -1 then None else Some(MockCategories[k])
  }

  /** `getTableByCode`: the first table with this code. */
  function GetTableByCode(code: string): (r: Option<Table>)
    ensures r.Some? <==> code in {"T01", "T02", "T03", "T04", "T05"}
    ensures r.Some? ==> r.value in MockTables && r.value.code == code && r.value.active
  {
    var k := FindIndex(MockTables, (t: Table) => t.code == code);
    assert k == -1 ==> forall j :: 0 <= j < 5 ==> MockTables[j].code != code;
    if k == -1 then None else Some(MockTables[k])
  }

  // ---------------------------------------------------------------------------
  // Menu items

  function WithCategory(item: MenuItem): MenuItem
  {
    item.(category := FindCategory(item.category_id))
  }

  /** The filters `getMenuItems` accepts; an empty category id is no filter. */
  predicate MenuFilterMatches(categoryId: Option<string>, inStock: Option<bool>, item: MenuItem)
  {
    && (categoryId.None? || categoryId.value == "" || item.category_id == categoryId.value)
    && (inStock.None? || item.in_stock == inStock.value)
  }

  function MenuFilterBy(categoryId: Option<string>, inStock: Option<bool>): MenuItem -> bool
  {
    (m: MenuItem) => MenuFilterMatches(categoryId, inStock, m)
  }

  /** `getMenuItems`: the items passing both filters, in store order, each
      with its category attached. */
  function GetMenuItems(db: MockDb, categoryId: Option<string>, inStock: Option<bool>): (r: seq<MenuItem>)
    ensures PicksMapped(r, db.menuItems, PassesAt(db.menuItems, MenuFilterBy(categoryId, inStock)), WithCategory)
    ensures forall i :: 0 <= i < |db.menuItems| && MenuFilterMatches(categoryId, inStock, db.menuItems[i]) ==>
      WithCategory(db.menuItems[i]) in r
    ensures forall x :: x in r ==> exists m :: m in db.menuItems && MenuFilterMatches(categoryId, inStock, m) && x == WithCategory(m)
    ensures forall x :: x in r ==> x.category == FindCategory(x.category_id)
  {
    var items := Filter(db.menuItems, MenuFilterBy(categoryId, inStock));
    MapFilterMembers(db.menuItems, MenuFilterBy(categoryId, inStock), WithCategory);
    MapFilterInOrder(db.menuItems, MenuFilterBy(categoryId, inStock), WithCategory);
    Map(items, WithCategory)
  }

  /** The fields a menu-item update may carry (`Partial<MenuItem>` as the
      admin route uses it). */
  datatype MenuItemPatch = MenuItemPatch(
    name: Option<string>,
    description: Option<string>,
    price: Option<int>,
    in_stock: Option<bool>,
    image_url: Option<string>)

  function ApplyMenuItemPatch(item: MenuItem, patch: MenuItemPatch): MenuItem
  {
    item.(
      name := patch.name.GetOr(item.name),
      description := patch.description.GetOr(item.description),
      price := patch.price.GetOr(item.price),
      in_stock := patch.in_stock.GetOr(item.in_stock),
      image_url := if patch.image_url.Some? then patch.image_url else item.image_url)
  }

  /** `updateMenuItem`: merges the patch into the first item with this id. An
      unknown id leaves the store unchanged and reports "Item not found". */
  function UpdateMenuItem(db: MockDb, id: string, patch: MenuItemPatch): (r: (MockDb, Result<MenuItem, DbError>))
    ensures r.1.Failure? <==> forall i :: 0 <= i < |db.menuItems| ==> db.menuItems[i].id != id
    ensures r.1.Failure? ==> r.0 == db && r.1.error.message == "Item not found"
    ensures r.1.Success? ==>
      var k := FindIndex(db.menuItems, (m: MenuItem) => m.id == id);
      && r.0 == db.(menuItems := db.menuItems[k := ApplyMenuItemPatch(db.menuItems[k], patch)])
      && r.1.value == WithCategory(r.0.menuItems[k])
      && r.1.value.id == id
  {
    var k := FindIndex(db.menuItems, (m: MenuItem) => m.id == id);
    if k == -1 then (db, Failure(DbError("Item not found", None)))
    else
      var updated := ApplyMenuItemPatch(db.menuItems[k], patch);
      var db' := db.(menuItems := db.menuItems[k := updated]);
      (db', Success(WithCategory(updated)))
  }

  // ---------------------------------------------------------------------------
  // Orders

  /** Order ids are the decimal strings "1", "2", ...: the order at position
      `i` has id `i + 1`, and every order item belongs to a stored order. */
  ghost predicate StoreInv(db: MockDb)
  {
    && (forall i :: 0 <= i < |db.orders| ==> db.orders[i].id == NatToString(i + 1))
    && (forall j :: 0 <= j < |db.orderItems| ==> IsStoredOrderId(db.orderItems[j].order_id, |db.orders|))
  }

  ghost predicate IsStoredOrderId(id: string, count: nat)
  {
    exists k: nat :: 1 <= k <= count && id == NatToString(k)
  }

  lemma InitialDbInv()
    ensures StoreInv(InitialDb)
  {
  }

  /** Since orders are never removed and each new id is the count plus one,
      order ids stay distinct. */
  lemma StoreInvIdsDistinct(db: MockDb)
    requires StoreInv(db)
    ensures forall i, j :: 0 <= i < j < |db.orders| ==> db.orders[i].id != db.orders[j].id
  {
    forall i, j | 0 <= i < j < |db.orders|
      ensures db.orders[i].id != db.orders[j].id
    {
      NatToStringInjective(i + 1, j + 1);
    }
  }

  /** The items stored for the order with this id. */
  function ItemsOf(db: MockDb, orderId: string): (r: seq<OrderItem>)
    ensures forall x :: x in r <==> x in db.orderItems && x.order_id == orderId
  {
    Filter(db.orderItems, (it: OrderItem) => it.order_id == orderId)
  }

  /** An order with its items and table attached, as the read operations
      return it. */
  function Materialize(db: MockDb, o: Order): Order
  {
    o.(order_items := Some(ItemsOf(db, o.id)), table := FindTableById(Some(o.table_id)))
  }

  /** What the orders route hands to `createOrder`. */
  datatype OrderData = OrderData(
    table_id: Option<string>,
    total: int,
    customer_notes: Option<string>,
    items: Option<seq<CartItem>>)

  /** The order items `createOrder` records: line `i` gets id `"<orderId>-<i>"`
      and snapshots the menu item's id and price. */
  function MockOrderItems(orderId: string, items: seq<CartItem>): (r: seq<OrderItem>)
    ensures |r| == |items|
    ensures forall i :: 0 <= i < |items| ==>
      && r[i].id == orderId + "-" + NatToString(i)
      && r[i].order_id == orderId
      && r[i].item_id == items[i].item.id
      && r[i].item == Some(items[i].item)
      && r[i].quantity == items[i].quantity
      && r[i].price == items[i].item.price
      && r[i].notes == items[i].notes
  {
    seq(|items|, i requires 0 <= i < |items| =>
      OrderItem(orderId + "-" + NatToString(i), orderId, items[i].item.id, Some(items[i].item),
        items[i].quantity, items[i].item.price, items[i].notes))
  }

  /** `createOrder`. The new order gets id `|orders| + 1`, the given code,
      `pending`/`pending` status and the supplied total; one order item is
      appended per cart line; the returned order carries exactly those items.
      A missing or empty `table_id` defaults to "1", while the attached table
      is looked up with the id as given. */
  function CreateOrder(db: MockDb, data: OrderData, code: string, now: Timestamp): (r: (MockDb, Order))
    requires StoreInv(db)
    ensures StoreInv(r.0)
    ensures
      var (db', order) := r;
      var lines := data.items.GetOr([]);
      && order.id == NatToString(|db.orders| + 1)
      && order.code == code
      && order.status == Pending && order.payment_status == Unpaid
      && order.total == data.total
      && order.payment_method.None?
      && order.customer_notes == data.customer_notes
      && order.table_id == (if data.table_id.Some? && data.table_id.value != "" then data.table_id.value else "1")
      && order.table == FindTableById(data.table_id)
      && order.created_at == now && order.updated_at == now
      && db'.orders == db.orders + [order.(order_items := None)]
      && db'.menuItems == db.menuItems
      && db'.orderItems == db.orderItems + MockOrderItems(order.id, lines)
      && order.order_items == Some(MockOrderItems(order.id, lines))
  {
    var n := |db.orders|;
    var orderId := NatToString(n + 1);
    var newOrder := Order(
      orderId, code,
      if data.table_id.Some? && data.table_id.value != "" then data.table_id.value else "1",
      FindTableById(data.table_id),
      Pending, data.total, Unpaid, None, data.customer_notes, None, now, now);
    var added := MockOrderItems(orderId, data.items.GetOr([]));
    var db' := MockDb(db.orders + [newOrder], db.orderItems + added, db.menuItems);
    NewOrderOwnsOnlyNewItems(db, orderId, added);
    AppendOrderKeepsInv(db, newOrder, added);
    (db', newOrder.(order_items := Some(ItemsOf(db', orderId))))
  }

  /** Filtering the extended item list by the fresh id finds exactly the
      appended items: no stored item can carry an id not yet issued. */
  lemma NewOrderOwnsOnlyNewItems(db: MockDb, orderId: string, added: seq<OrderItem>)
    requires StoreInv(db)
    requires orderId == NatToString(|db.orders| + 1)
    requires forall i :: 0 <= i < |added| ==> added[i].order_id == orderId
    ensures ItemsOf(MockDb(db.orders, db.orderItems + added, db.menuItems), orderId) == added
  {
    var p := (it: OrderItem) => it.order_id == orderId;
    var n := |db.orders|;
    forall j | 0 <= j < |db.orderItems| ensures !p(db.orderItems[j]) {
      var k: nat :| 1 <= k <= n && db.orderItems[j].order_id == NatToString(k);
      NatToStringInjective(k, n + 1);
    }
    FilterDropsAll(db.orderItems, p);
    FilterConcat(db.orderItems, added, p);
    FilterKeepsAll(added, p);
  }

  /** Appending an order with the next id, and items that belong to it,
      keeps the store invariant. */
  lemma AppendOrderKeepsInv(db: MockDb, o: Order, added: seq<OrderItem>)
    requires StoreInv(db)
    requires o.id == NatToString(|db.orders| + 1)
    requires forall i :: 0 <= i < |added| ==> added[i].order_id == o.id
    ensures StoreInv(MockDb(db.orders + [o], db.orderItems + added, db.menuItems))
  {
    var n := |db.orders|;
    var db' := MockDb(db.orders + [o], db.orderItems + added, db.menuItems);
    forall j | 0 <= j < |db'.orderItems| ensures IsStoredOrderId(db'.orderItems[j].order_id, n + 1) {
      if j < |db.orderItems| {
        var k: nat :| 1 <= k <= n && db.orderItems[j].order_id == NatToString(k);
        assert db'.orderItems[j] == db.orderItems[j];
      } else {
        assert db'.orderItems[j] == added[j - |db.orderItems|];
        assert db'.orderItems[j].order_id == NatToString(n + 1);
      }
    }
  }

  /** The order filters `getOrders` accepts; an absent or empty string is no
      filter, and a string that names no status matches nothing. */
  predicate OrderFilterMatches(status: Option<string>, paymentStatus: Option<string>, o: Order)
  {
    && (status.None? || status.value == "" || OrderStatusName(o.status) == status.value)
    && (paymentStatus.None? || paymentStatus.value == "" || PaymentStatusName(o.payment_status) == paymentStatus.value)
  }

  /** `getOrders`: the stored orders passing both filters, in insertion
      order, each with its items and table attached. */
  function GetOrders(db: MockDb, status: Option<string>, paymentStatus: Option<string>): (r: seq<Order>)
    ensures PicksMapped(r, db.orders, PassesAt(db.orders, OrderFilterBy(status, paymentStatus)), MaterializeIn(db))
    ensures |r| == Count(db.orders, OrderFilterBy(status, paymentStatus))
    ensures forall i :: 0 <= i < |db.orders| && OrderFilterMatches(status, paymentStatus, db.orders[i]) ==>
      Materialize(db, db.orders[i]) in r
    ensures forall x :: x in r ==> exists o :: o in db.orders && OrderFilterMatches(status, paymentStatus, o) && x == Materialize(db, o)
  {
    var matching := Filter(db.orders, OrderFilterBy(status, paymentStatus));
    assert forall i :: 0 <= i < |db.orders| && OrderFilterMatches(status, paymentStatus, db.orders[i]) ==>
      db.orders[i] in matching;
    MapFilterInOrder(db.orders, OrderFilterBy(status, paymentStatus), MaterializeIn(db));
    Map(matching, MaterializeIn(db))
  }

  function OrderFilterBy(status: Option<string>, paymentStatus: Option<string>): Order -> bool
  {
    (o: Order) => OrderFilterMatches(status, paymentStatus, o)
  }

  function MaterializeIn(db: MockDb): Order -> Order
  {
    (o: Order) => Materialize(db, o)
  }

  function CodeIs(code: string): Order -> bool
  {
    (o: Order) => o.code == code
  }

  /** `getOrderByCode`: the first order with this code, with exactly its
      items; an unknown code gives the "Order not found" error with code
      PGRST116. */
  function GetOrderByCode(db: MockDb, code: string): (r: Result<Order, DbError>)
    ensures r.Failure? <==> forall i :: 0 <= i < |db.orders| ==> db.orders[i].code != code
    ensures r.Failure? ==> r.error == DbError("Order not found", Some("PGRST116"))
    ensures r.Success? ==>
      exists k :: 0 <= k < |db.orders| && db.orders[k].code == code
        && (forall j :: 0 <= j < k ==> db.orders[j].code != code)
        && r.value == Materialize(db, db.orders[k])
    ensures r.Success? ==>
      && r.value.code == code
      && r.value.order_items.Some?
      && (forall x :: x in r.value.order_items.value <==> x in db.orderItems && x.order_id == r.value.id)
  {
    var k := FindIndex(db.orders, CodeIs(code));
    if k == -1 then Failure(DbError("Order not found", Some("PGRST116")))
    else Success(Materialize(db, db.orders[k]))
  }

  /** The `{...order, ...updates}` merge: a present patch field replaces the
      order's, an absent one leaves it. */
  function ApplyOrderPatch(o: Order, patch: UpdateOrder): Order
  {
    o.(
      status := patch.status.GetOr(o.status),
      payment_status := patch.payment_status.GetOr(o.payment_status),
      payment_method := if patch.payment_method.Some? then patch.payment_method else o.payment_method)
  }

  /** `updateOrder`. It performs no transition check: whatever the patch
      carries is written. An unknown code leaves the store unchanged and
      reports "Order not found"; otherwise only the first order with the code
      changes, in the patched fields and `updated_at`. */
  function UpdateOrder(db: MockDb, code: string, patch: UpdateOrder, now: Timestamp): (r: (MockDb, Result<Order, DbError>))
    ensures r.1.Failure? <==> forall i :: 0 <= i < |db.orders| ==> db.orders[i].code != code
    ensures r.1.Failure? ==> r.0 == db && r.1.error == DbError("Order not found", None)
    ensures r.1.Success? ==>
      var k := FindIndex(db.orders, CodeIs(code));
      && 0 <= k < |db.orders| && |r.0.orders| == |db.orders|
      && r.0.orderItems == db.orderItems && r.0.menuItems == db.menuItems
      && var (was, now') := (db.orders[k], r.0.orders[k]);
      && was.code == code
      && (forall j :: 0 <= j < |db.orders| && j != k ==> r.0.orders[j] == db.orders[j])
      && now'.status == (if patch.status.Some? then patch.status.value else was.status)
      && now'.payment_status == (if patch.payment_status.Some? then patch.payment_status.value else was.payment_status)
      && now'.payment_method == (if patch.payment_method.Some? then patch.payment_method else was.payment_method)
      && now'.updated_at == now
      && now'.(status := was.status, payment_status := was.payment_status,
              payment_method := was.payment_method, updated_at := was.updated_at) == was
      && r.1.value == Materialize(r.0, now')
    ensures StoreInv(db) ==> StoreInv(r.0)
  {
    var k := FindIndex(db.orders, CodeIs(code));
    if k == -1 then (db, Failure(DbError("Order not found", None)))
    else
      var updated := ApplyOrderPatch(db.orders[k], patch).(updated_at := now);
      var db' := db.(orders := db.orders[k := updated]);
      (db', Success(Materialize(db', updated)))
  }

  // ---------------------------------------------------------------------------
  // Sales summary

  /** The part of the mock `getSalesReport` that does not come from
      `Math.random`: over the paid orders, their number, their revenue and
      their status histogram. */
  datatype SalesSummary = SalesSummary(total_orders: nat, total_revenue: int, orders_by_status: map<OrderStatus, nat>)

  function IsPaid(): Order -> bool
  {
    (o: Order) => o.payment_status == Paid
  }

  function GetSalesSummary(db: MockDb): (r: SalesSummary)
    ensures r.total_orders == Count(db.orders, IsPaid())
    ensures r.total_revenue == SumTotals(Filter(db.orders, IsPaid()))
    ensures HistogramSum(r.orders_by_status, AllOrderStatuses) == r.total_orders
    ensures forall s :: s in r.orders_by_status <==>
      exists o :: o in db.orders && o.payment_status == Paid && o.status == s
  {
    var paid := Filter(db.orders, IsPaid());
    HistogramTotal(paid);
    SalesSummary(|paid|, SumTotals(paid), StatusHistogram(paid))
  }

  /** After a successful update the same order is still the first one with
      the code, and it carries the patched status. */
  lemma UpdateOrderKeepsPosition(db: MockDb, code: string, patch: UpdateOrder, now: Timestamp)
    requires exists i :: 0 <= i < |db.orders| && db.orders[i].code == code
    ensures var k := FindIndex(db.orders, CodeIs(code));
      var db' := UpdateOrder(db, code, patch, now).0;
      && FindIndex(db'.orders, CodeIs(code)) == k
      && db'.orders[k].status == patch.status.GetOr(db.orders[k].status)
  {
    var k := FindIndex(db.orders, CodeIs(code));
    var db' := UpdateOrder(db, code, patch, now).0;
    FindIndexSamePrefix(db.orders, db'.orders, CodeIs(code), k);
  }
}
