/** `src/app/api/orders/[code]/route.ts` and the two clients that move an
    order along: the cashier's payment patch
    (`src/components/cashier/CashierSystem.tsx`) and the kitchen's
    next-status button. The route writes whatever status it is sent; the
    only forward discipline is the one the kitchen's `getNextStatus`
    imposes. */
module Lifecycle {
  import opened Wrappers
  import opened Seqs
  import opened Types
  import opened MockDatabase
  import opened OrdersRoute
  import opened OrderCard
  import opened OrderTracking

  const OrderNotFound: ApiError := ApiError(404, "Order not found")
  const UpdateFailed: ApiError := ApiError(500, "Failed to update order")

  /** `GET /api/orders/[code]` without Supabase: the order, or 404 when no
      order has the code. */
  function GetOrderRoute(db: MockDb, code: string): (r: Result<Order, ApiError>)
    ensures r.Failure? <==> forall i :: 0 <= i < |db.orders| ==> db.orders[i].code != code
    ensures r.Failure? ==> r.error == OrderNotFound
    ensures r.Success? ==> r.value.code == code && r.value == GetOrderByCode(db, code).value
  {
    match GetOrderByCode(db, code)
    case Failure(_) => Failure(OrderNotFound)
    case Success(o) => Success(o)
  }

  /** `PATCH /api/orders/[code]` without Supabase. The fields present in the
      body form the patch handed to `updateOrder`; an unknown code is thrown
      and reported as a 500, leaving the store as it was. */
  function PatchOrderMock(db: MockDb, code: string, body: UpdateOrder, now: Timestamp): (r: (MockDb, Result<Order, ApiError>))
    ensures r.1.Failure? <==> forall i :: 0 <= i < |db.orders| ==> db.orders[i].code != code
    ensures r.1.Failure? ==> r.0 == db && r.1.error == UpdateFailed
    ensures r.1.Success? ==>
      && r.1.value.code == code
      && (body.status.Some? ==> r.1.value.status == body.status.value)
      && (body.payment_status.Some? ==> r.1.value.payment_status == body.payment_status.value)
      && (body.payment_method.Some? ==> r.1.value.payment_method == body.payment_method)
    ensures r.1.Success? ==>
      var k := FindIndex(db.orders, CodeIs(code));
      && 0 <= k < |db.orders| && |r.0.orders| == |db.orders|
      && r.0 == db.(orders := r.0.orders)
      && (forall j :: 0 <= j < |db.orders| && j != k ==> r.0.orders[j] == db.orders[j])
      && r.0.orders[k] == ApplyOrderPatch(db.orders[k], body).(updated_at := now)
      && r.1.value == Materialize(r.0, r.0.orders[k])
    ensures StoreInv(db) ==> StoreInv(r.0)
  {
    var (db', res) := MockDatabase.UpdateOrder(db, code, body, now);
    match res
    case Failure(_) => (db', Failure(UpdateFailed))
    case Success(o) => (db', Success(o))
  }

  /** The audit row the Supabase branch writes after a successful update that
      carried a status. */
  function StatusEvent(o: Order, body: UpdateOrder): (r: Option<KdsEvent>)
    ensures r.Some? <==> body.status.Some?
    ensures r.Some? ==>
      && r.value.order_id == o.id && r.value.status == body.status.value
      && r.value.notes == "Status updated to " + OrderStatusName(body.status.value)
  {
    if body.status.Some? then Some(KdsEvent(o.id, body.status.value, "Status updated to " + OrderStatusName(body.status.value)))
    else None
  }

  /** `PATCH /api/orders/[code]` with Supabase, over the `orders` rows. The
      update asks for a single object (`.single()`), and PostgREST rolls such
      a request back unless it touched exactly one row: so with exactly one
      row for the code that row is patched and, if the body carried a status,
      a KDS event is written; with none or several nothing changes and the
      route answers 500. */
  function PatchOrderSupabase(rows: seq<Order>, code: string, body: UpdateOrder): (r: (seq<Order>, Result<Order, ApiError>, seq<KdsEvent>))
    ensures |r.0| == |rows|
    ensures r.1.Success? ==> forall i :: 0 <= i < |rows| ==>
      r.0[i] == if rows[i].code == code then ApplyOrderPatch(rows[i], body) else rows[i]
    ensures r.1.Success? <==> Count(rows, CodeIs(code)) == 1
    ensures r.1.Failure? ==> r.0 == rows && r.1.error == UpdateFailed && r.2 == []
    ensures r.1.Success? ==>
      && r.1.value.code == code && r.1.value in r.0
      && r.2 == (if body.status.Some? then [StatusEvent(r.1.value, body).value] else [])
  {
    var rows' := Map(rows, (o: Order) => if o.code == code then ApplyOrderPatch(o, body) else o);
    var matched := Filter(rows, CodeIs(code));
    if |matched| == 1 then
      var o := ApplyOrderPatch(matched[0], body);
      assert matched[0] in rows;
      var ev := StatusEvent(o, body);
      (rows', Success(o), if ev.Some? then [ev.value] else [])
    else
      (rows, Failure(UpdateFailed), [])
  }

  // ---------------------------------------------------------------------------
  // The cashier's payment

  /** The body `handlePayment` sends: paid, the chosen method, and
      `confirmed` so that the kitchen sees the order. */
  function CashierPaymentPatch(m: PaymentMethod): UpdateOrder
  {
    UpdateOrder(Some(Confirmed), Some(Paid), Some(m))
  }

  /** Paying an order makes it confirmed and paid whatever its status was,
      even `delivered` or `cancelled`: the route checks no transition. */
  lemma PaymentConfirmsAnyOrder(db: MockDb, code: string, m: PaymentMethod, now: Timestamp)
    requires exists i :: 0 <= i < |db.orders| && db.orders[i].code == code
    ensures var r := PatchOrderMock(db, code, CashierPaymentPatch(m), now);
      && r.1.Success?
      && r.1.value.status == Confirmed && r.1.value.payment_status == Paid
      && r.1.value.payment_method == Some(m)
  {
  }

  // ---------------------------------------------------------------------------
  // The kitchen driver

  /** The status of the first order with the code, if there is one. */
  function StatusOf(db: MockDb, code: string): (r: Option<OrderStatus>)
    ensures r.None? <==> forall i :: 0 <= i < |db.orders| ==> db.orders[i].code != code
  {
    var k := FindIndex(db.orders, CodeIs(code));
    if k == -1 then None else Some(db.orders[k].status)
  }

  /** One press of the card's advance button, sent through the PATCH route:
      the order moves to its next status, or nothing happens when it has
      none. */
  function KitchenStep(db: MockDb, code: string, now: Timestamp): MockDb
  {
    match StatusOf(db, code)
    case None => db
    case Some(s) =>
      match NextStatus(s)
      case None => db
      case Some(n) => PatchOrderMock(db, code, UpdateOrder(Some(n), None, None), now).0
  }

  /** A step never moves the order backwards along the timeline: it either
      keeps the status or moves it exactly one step on. */
  lemma KitchenStepAdvances(db: MockDb, code: string, now: Timestamp)
    requires StatusOf(db, code).Some?
    ensures var (s, s') := (StatusOf(db, code).value, StatusOf(KitchenStep(db, code, now), code));
      && s'.Some?
      && s'.value == (if NextStatus(s).Some? then NextStatus(s).value else s)
      && CurrentStatusIndex(s'.value) >= CurrentStatusIndex(s)
  {
    var s := StatusOf(db, code).value;
    StepIndices();
    if NextStatus(s).Some? {
      UpdateOrderKeepsPosition(db, code, UpdateOrder(Some(NextStatus(s).value), None, None), now);
    }
  }

  /** The driver presses the button once per tick of `clock`. */
  function KitchenRun(db: MockDb, code: string, clock: seq<Timestamp>): MockDb
  {
    if |clock| == 0 then db
    else KitchenStep(KitchenRun(db, code, clock[..|clock| - 1]), code, clock[|clock| - 1])
  }

  /** Driven only through `getNextStatus`, a confirmed order passes through
      making and ready, is delivered after three presses and stays
      delivered. */
  lemma {:induction false} KitchenRunReachesDelivered(db: MockDb, code: string, clock: seq<Timestamp>)
    requires StatusOf(db, code) == Some(Confirmed)
    ensures StatusOf(KitchenRun(db, code, clock), code) == Some(Advance(Confirmed, |clock|))
    ensures |clock| >= 3 ==> StatusOf(KitchenRun(db, code, clock), code) == Some(Delivered)
  {
    if |clock| > 0 {
      var prefix := clock[..|clock| - 1];
      KitchenRunReachesDelivered(db, code, prefix);
      var mid := KitchenRun(db, code, prefix);
      assert KitchenRun(db, code, clock) == KitchenStep(mid, code, clock[|clock| - 1]);
      KitchenStepAdvances(mid, code, clock[|clock| - 1]);
      AdvanceStep(Confirmed, |prefix|);
    }
    ConfirmedReachesDelivered(|clock|);
  }

  /** Along the run the timeline index never decreases. */
  lemma AdvanceMonotone(k: nat)
    ensures CurrentStatusIndex(Advance(Confirmed, k)) <= CurrentStatusIndex(Advance(Confirmed, k + 1))
  {
    AdvanceStep(Confirmed, k);
    StepIndices();
    AdvanceNeverCancels(Confirmed, k);
  }

  lemma {:induction false} AdvanceNeverCancels(s: OrderStatus, n: nat)
    requires s != Cancelled
    decreases n
    ensures Advance(s, n) != Cancelled
  {
    if n > 0 && NextStatus(s).Some? {
      AdvanceNeverCancels(NextStatus(s).value, n - 1);
    }
  }

  /** One more application of `NextStatus` after `n`. */
  lemma {:induction false} AdvanceStep(s: OrderStatus, n: nat)
    decreases n
    ensures var t := Advance(s, n);
      Advance(s, n + 1) == if NextStatus(t).Some? then NextStatus(t).value else t
  {
    if n > 0 && NextStatus(s).Some? {
      AdvanceStep(NextStatus(s).value, n - 1);
    }
  }
}
