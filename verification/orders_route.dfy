/** `src/app/api/orders/route.ts`: the `POST` that places an order and the
    `GET` that lists orders, on both back ends. The mock back end is the store
    of `MockDatabase`; the Supabase back end is reduced to the rows the route
    queries and the rows it asks to insert, with the ids and the clock the
    database assigns passed in. */
module OrdersRoute {
  import opened Wrappers
  import opened Text
  import opened Seqs
  import opened Types
  import opened Utils
  import opened MockDatabase
  import opened Sorting

  /** A failed request: the HTTP status and the `error` message. */
  datatype ApiError = ApiError(status: int, message: string)

  const MissingFieldsError: ApiError := ApiError(400, "Table code and items are required")
  const InvalidTableError: ApiError := ApiError(400, "Invalid table code")

  /** The JSON body of `POST /api/orders`; any field may be missing. */
  datatype OrderRequest = OrderRequest(
    table_code: Option<string>,
    items: Option<seq<CartItem>>,
    customer_notes: Option<string>)

  /** The input check: a non-empty table code and a non-empty item list. */
  predicate HasRequiredFields(req: OrderRequest)
  {
    req.table_code.Some? && req.table_code.value != "" && req.items.Some? && |req.items.value| > 0
  }

  /** `items.reduce((sum, item) => sum + item.item.price * item.quantity, 0)`. */
  function RequestTotal(items: seq<CartItem>): (total: int)
  {
    CartLinesTotal(items)
  }

  function PriceQuantityOf(line: CartItem): PriceQuantity
  {
    PriceQuantity(line.item.price, line.quantity)
  }

  /** The route's total is `calculateCartTotal` of the lines' prices and
      quantities. */
  lemma {:induction false} RequestTotalIsCartTotal(items: seq<CartItem>)
    ensures RequestTotal(items) == CalculateCartTotal(Map(items, PriceQuantityOf))
  {
    if |items| > 0 {
      var prefix := items[..|items| - 1];
      RequestTotalIsCartTotal(prefix);
      var m := Map(items, PriceQuantityOf);
      assert m[..|m| - 1] == Map(prefix, PriceQuantityOf);
    }
  }

  // ---------------------------------------------------------------------------
  // POST on the mock store

  /** `POST /api/orders` without Supabase. Missing fields are rejected first,
      then an unknown table code; otherwise exactly one order is created for
      the table's id, totalling the lines, with one order item per line.
      `code` stands for the random mock order code and `now` for the clock. */
  function PostOrderMock(db: MockDb, req: OrderRequest, code: string, now: Timestamp): (r: (MockDb, Result<Order, ApiError>))
    requires StoreInv(db)
    ensures StoreInv(r.0)
    ensures !HasRequiredFields(req) ==> r == (db, Failure(MissingFieldsError))
    ensures HasRequiredFields(req) && GetTableByCode(req.table_code.value).None? ==> r == (db, Failure(InvalidTableError))
    ensures r.1.Success? <==> HasRequiredFields(req) && req.table_code.value in {"T01", "T02", "T03", "T04", "T05"}
    ensures r.1.Success? ==>
      var order := r.1.value;
      var lines := req.items.value;
      && r.0.orders == db.orders + [order.(order_items := None)]
      && order.order_items.Some?
      && r.0.orderItems == db.orderItems + order.order_items.value
      && r.0.menuItems == db.menuItems
      && order.table_id == GetTableByCode(req.table_code.value).value.id
      && order.total == CartLinesTotal(lines)
      && order.status == Pending && order.payment_status == Unpaid
      && order.customer_notes == req.customer_notes
      && |order.order_items.value| == |lines|
      && forall i :: 0 <= i < |lines| ==>
           && order.order_items.value[i].order_id == order.id
           && order.order_items.value[i].item_id == lines[i].item.id
           && order.order_items.value[i].price == lines[i].item.price
           && order.order_items.value[i].quantity == lines[i].quantity
  {
    if !HasRequiredFields(req) then (db, Failure(MissingFieldsError))
    else
      var table := GetTableByCode(req.table_code.value);
      if table.None? then (db, Failure(InvalidTableError))
      else
        var data := OrderData(Some(table.value.id), RequestTotal(req.items.value), req.customer_notes, req.items);
        var (db', order) := CreateOrder(db, data, code, now);
        (db', Success(order))
  }

  /** An order at table T01 for one 10000 item and two 5000 items totals
      20000, becomes order "1" of table "1", and records one item per cart
      line. */
  lemma PostOrderMockExample(a: MenuItem, b: MenuItem, now: Timestamp)
    requires a.price == 10000 && b.price == 5000
    ensures var req := OrderRequest(Some("T01"), Some([CartItem(a, 1, None), CartItem(b, 2, None)]), None);
      var r := PostOrderMock(InitialDb, req, "ABC123", now);
      && r.1.Success?
      && r.1.value.total == 20000
      && r.1.value.id == "1"
      && r.1.value.table_id == "1"
      && |r.0.orders| == 1 && |r.0.orderItems| == 2
  {
    InitialDbInv();
    var lines := [CartItem(a, 1, None), CartItem(b, 2, None)];
    assert lines[..1] == [CartItem(a, 1, None)];
    assert lines[..1][..0] == [];
    assert CartLinesTotal(lines[..1]) == 10000;
    assert CartLinesTotal(lines) == 20000;
  }

  // ---------------------------------------------------------------------------
  // POST on Supabase

  /** The `orders` row the route inserts. */
  datatype OrderInsert = OrderInsert(
    code: string,
    table_id: string,
    total: int,
    customer_notes: Option<string>,
    status: OrderStatus,
    payment_status: PaymentStatus)

  /** An `order_items` row the route inserts. */
  datatype OrderItemInsert = OrderItemInsert(
    order_id: string,
    item_id: string,
    quantity: int,
    price: int,
    notes: Option<string>)

  /** Everything the Supabase branch writes for one accepted request. */
  datatype InsertPlan = InsertPlan(order: OrderInsert, items: seq<OrderItemInsert>, event: KdsEvent)

  predicate IsActiveTableWithCode(code: string, t: Table)
  {
    t.code == code && t.active
  }

  /** `.eq('code', code).eq('active', true).single()`: the table, when
      exactly one active table has the code; `single()` fails otherwise. */
  function SingleActiveTable(tables: seq<Table>, code: string): (r: Option<Table>)
    ensures r.Some? <==> Count(tables, (t: Table) => IsActiveTableWithCode(code, t)) == 1
    ensures r.Some? ==> r.value in tables && r.value.code == code && r.value.active
  {
    var rows := Filter(tables, (t: Table) => IsActiveTableWithCode(code, t));
    if |rows| == 1 then
      assert rows[0] in rows;
      Some(rows[0])
    else None
  }

  function ItemInsertOf(orderId: string): CartItem -> OrderItemInsert
  {
    (line: CartItem) => OrderItemInsert(orderId, line.item.id, line.quantity, line.item.price, line.notes)
  }

  /** `POST /api/orders` with Supabase, up to the rows it writes. `draws` are
      the random indices `generateOrderCode` uses and `orderId` is the id the
      database gives the inserted order. A rejected request writes nothing; an
      accepted one writes one pending, unpaid order, one item row per line
      with the menu item's price, and exactly one `pending` KDS event. */
  function PostOrderSupabase(tables: seq<Table>, req: OrderRequest, draws: seq<nat>, orderId: string): (r: Result<InsertPlan, ApiError>)
    requires |draws| == 6 && forall i :: 0 <= i < 6 ==> draws[i] < 36
    ensures !HasRequiredFields(req) ==> r == Failure(MissingFieldsError)
    ensures HasRequiredFields(req) ==>
      (r.Success? <==> Count(tables, (t: Table) => IsActiveTableWithCode(req.table_code.value, t)) == 1)
    ensures r.Failure? ==> r.error.status == 400
    ensures r.Success? ==>
      var p := r.value;
      var lines := req.items.value;
      && p.order.status == Pending && p.order.payment_status == Unpaid
      && p.order.total == CartLinesTotal(lines)
      && p.order.customer_notes == req.customer_notes
      && IsOrderCodeFormat(p.order.code)
      && (exists t :: t in tables && t.code == req.table_code.value && t.active && t.id == p.order.table_id)
      && |p.items| == |lines|
      && (forall i :: 0 <= i < |lines| ==>
            p.items[i] == OrderItemInsert(orderId, lines[i].item.id, lines[i].quantity, lines[i].item.price, lines[i].notes))
      && p.event == KdsEvent(orderId, Pending, "Order placed by customer")
  {
    if !HasRequiredFields(req) then Failure(MissingFieldsError)
    else
      var table := SingleActiveTable(tables, req.table_code.value);
      if table.None? then Failure(InvalidTableError)
      else
        var lines := req.items.value;
        var order := OrderInsert(GenerateOrderCode(draws), table.value.id, RequestTotal(lines),
                                 req.customer_notes, Pending, Unpaid);
        Success(InsertPlan(order, Map(lines, ItemInsertOf(orderId)), KdsEvent(orderId, Pending, "Order placed by customer")))
  }

  // ---------------------------------------------------------------------------
  // GET

  /** A query string as its sequence of `key=value` pairs, in order. */
  type QueryParams = seq<(string, string)>

  function KeyIs(key: string): ((string, string)) -> bool
  {
    (kv: (string, string)) => kv.0 == key
  }

  /** `searchParams.get(key)`: the value of the first pair with that key. */
  function QueryGet(params: QueryParams, key: string): (r: Option<string>)
    ensures r.None? <==> forall i :: 0 <= i < |params| ==> params[i].0 != key
    ensures r.Some? ==> exists i :: 0 <= i < |params| && params[i] == (key, r.value)
                           && forall j :: 0 <= j < i ==> params[j].0 != key
  {
    if |params| == 0 then None
    else if params[0].0 == key then Some(params[0].1)
    else
      var r := QueryGet(params[1..], key);
      assert forall i :: 1 <= i < |params| ==> params[i] == params[1..][i - 1];
      r
  }

  function PairValue(kv: (string, string)): string
  {
    kv.1
  }

  /** `searchParams.getAll(key)`: the values of every pair with that key, in
      query order and with repeats. */
  function QueryGetAll(params: QueryParams, key: string): (r: seq<string>)
    ensures PicksMapped(r, params, PassesAt(params, KeyIs(key)), PairValue)
    ensures forall v :: v in r <==> (key, v) in params
  {
    var pairs := Filter(params, KeyIs(key));
    assert forall v :: (key, v) in params ==> (key, v) in pairs;
    MapFilterInOrder(params, KeyIs(key), PairValue);
    Map(pairs, PairValue)
  }

  /** `GET /api/orders` without Supabase: only `status` and `payment_status`
      reach `getOrders`, each by its first value; `table_id` is ignored. */
  function GetOrdersMock(db: MockDb, params: QueryParams): seq<Order>
  {
    GetOrders(db, QueryGet(params, "status"), QueryGet(params, "payment_status"))
  }

  /** The mock listing does not depend on any `table_id` parameter. */
  lemma GetOrdersMockIgnoresTableId(db: MockDb, params: QueryParams)
    ensures GetOrdersMock(db, params) == GetOrdersMock(db, Filter(params, (kv: (string, string)) => kv.0 != "table_id"))
  {
    var p := (kv: (string, string)) => kv.0 != "table_id";
    FirstValueKept(params, p, "status");
    FirstValueKept(params, p, "payment_status");
  }

  /** Dropping pairs of other keys does not change a key's first value. */
  lemma {:induction false} FirstValueKept(params: QueryParams, p: ((string, string)) -> bool, key: string)
    requires forall kv: (string, string) :: kv.0 == key ==> p(kv)
    ensures QueryGet(Filter(params, p), key) == QueryGet(params, key)
  {
    if |params| > 0 {
      FirstValueKept(params[1..], p, key);
      var kept := Filter(params, p);
      if p(params[0]) {
        assert kept == [params[0]] + Filter(params[1..], p);
        assert kept[1..] == Filter(params[1..], p);
      } else {
        assert kept == Filter(params[1..], p);
      }
    }
  }

  /** The non-empty values of every `status` pair: the statuses a listing
      honouring repeated `status` parameters accepts. */
  function WantedStatuses(params: QueryParams): (r: seq<string>)
    ensures forall v :: v in r <==> v != "" && ("status", v) in params
  {
    Filter(QueryGetAll(params, "status"), (v: string) => v != "")
  }

  /** No wanted status means no status filter; otherwise the order's status
      must be one of them. */
  predicate AnyStatusMatches(statuses: seq<string>, paymentStatus: Option<string>, o: Order)
  {
    && (|statuses| == 0 || OrderStatusName(o.status) in statuses)
    && (paymentStatus.None? || paymentStatus.value == "" || PaymentStatusName(o.payment_status) == paymentStatus.value)
  }

  function AnyStatusBy(statuses: seq<string>, paymentStatus: Option<string>): Order -> bool
  {
    (o: Order) => AnyStatusMatches(statuses, paymentStatus, o)
  }

  /** The mock `GET /api/orders` reading `status` with `getAll`, as the
      kitchen display's repeated `status` parameters need; the orders come
      in store order. */
  function GetOrdersMockAll(db: MockDb, params: QueryParams): (r: seq<Order>)
    ensures PicksMapped(r, db.orders,
      PassesAt(db.orders, AnyStatusBy(WantedStatuses(params), QueryGet(params, "payment_status"))), MaterializeIn(db))
    ensures forall x :: x in r <==>
      exists o :: o in db.orders && AnyStatusMatches(WantedStatuses(params), QueryGet(params, "payment_status"), o)
                  && x == Materialize(db, o)
  {
    var wanted, payment := WantedStatuses(params), QueryGet(params, "payment_status");
    var matching := Filter(db.orders, AnyStatusBy(wanted, payment));
    var r := Map(matching, MaterializeIn(db));
    forall x | x in r
      ensures exists o :: o in db.orders && AnyStatusMatches(wanted, payment, o) && x == Materialize(db, o)
    {
      var o :| o in matching && x == Materialize(db, o);
    }
    forall o | o in db.orders && AnyStatusMatches(wanted, payment, o)
      ensures Materialize(db, o) in r
    {
      assert o in matching;
    }
    MapFilterInOrder(db.orders, AnyStatusBy(wanted, payment), MaterializeIn(db));
    r
  }

  /** With at most one `status` value the two readings agree. */
  lemma GetOrdersMockAllSingleStatus(db: MockDb, params: QueryParams, v: string)
    requires v != ""
    requires forall i :: 0 <= i < |params| && params[i].0 == "status" ==> params[i].1 == v
    requires ("status", v) in params
    ensures GetOrdersMockAll(db, params) == GetOrdersMock(db, params)
    ensures forall x :: x in GetOrdersMockAll(db, params) <==> x in GetOrdersMock(db, params)
  {
    var wanted, payment := WantedStatuses(params), QueryGet(params, "payment_status");
    assert v in wanted;
    assert forall w :: w in wanted ==> w == v;
    assert QueryGet(params, "status") == Some(v);
    forall i | 0 <= i < |db.orders|
      ensures AnyStatusBy(wanted, payment)(db.orders[i]) == OrderFilterBy(Some(v), payment)(db.orders[i])
    {
      var o := db.orders[i];
      assert OrderStatusName(o.status) in wanted <==> OrderStatusName(o.status) == v;
    }
    FilterCongruent(db.orders, AnyStatusBy(wanted, payment), OrderFilterBy(Some(v), payment));
  }

  /** A row matches the Supabase query when it equals every filter given a
      non-empty value. */
  predicate SupabaseOrderFilter(status: Option<string>, paymentStatus: Option<string>, tableId: Option<string>, o: Order)
  {
    && (status.None? || status.value == "" || OrderStatusName(o.status) == status.value)
    && (paymentStatus.None? || paymentStatus.value == "" || PaymentStatusName(o.payment_status) == paymentStatus.value)
    && (tableId.None? || tableId.value == "" || o.table_id == tableId.value)
  }

  function SupabaseBy(status: Option<string>, paymentStatus: Option<string>, tableId: Option<string>): Order -> bool
  {
    (o: Order) => SupabaseOrderFilter(status, paymentStatus, tableId, o)
  }

  /** `GET /api/orders` with Supabase over the `orders` rows: `status`,
      `payment_status` and `table_id` each filter by their first value, and
      `.order('created_at', { ascending: false })` puts the newest first.
      The database promises nothing about rows created at the same instant,
      so neither does this contract. */
  function GetOrdersSupabase(rows: seq<Order>, params: QueryParams): (r: seq<Order>)
    ensures forall o :: o in r <==>
      (o in rows && SupabaseOrderFilter(QueryGet(params, "status"), QueryGet(params, "payment_status"), QueryGet(params, "table_id"), o))
    ensures forall i, j :: 0 <= i < j < |r| ==> r[i].created_at.millis >= r[j].created_at.millis
    ensures multiset(r) == multiset(Filter(rows,
      SupabaseBy(QueryGet(params, "status"), QueryGet(params, "payment_status"), QueryGet(params, "table_id"))))
  {
    var status, payment, table := QueryGet(params, "status"), QueryGet(params, "payment_status"), QueryGet(params, "table_id");
    var matching := Filter(rows, SupabaseBy(status, payment, table));
    var r := SortDesc(matching, CreatedMillis);
    SameElements(r, matching);
    r
  }
}
