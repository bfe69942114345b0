/** The kitchen display's view logic (`src/components/kds/KitchenDisplay.tsx`):
    the order list it loads, the sort-key state machine, the time sort, the
    filter and grouping by status, the urgent count and the local list
    update after a status change. The current time is an input. */
module KitchenDisplay {
  import opened Wrappers
  import opened Seqs
  import opened Types
  import opened Sorting
  import opened MockDatabase
  import opened OrdersRoute
  import opened OrderCard
  import Reports

  /** The statuses the display starts with. */
  const InitialFilter: seq<OrderStatus> := [Confirmed, Making, Ready]

  // ---------------------------------------------------------------------------
  // Loading

  function StatusParam(s: OrderStatus): (string, string)
  {
    ("status", OrderStatusName(s))
  }

  /** `payment_status=paid&status=…&status=…`: one `status` pair per selected
      status, after the payment filter. */
  function KdsQuery(filter: seq<OrderStatus>): (r: QueryParams)
    ensures QueryGet(r, "payment_status") == Some("paid")
    ensures forall v :: ("status", v) in r <==> exists s :: s in filter && v == OrderStatusName(s)
    ensures |filter| > 0 ==> QueryGet(r, "status") == Some(OrderStatusName(filter[0]))
  {
    var r := [("payment_status", "paid")] + Seqs.Map(filter, StatusParam);
    assert r[1..] == Seqs.Map(filter, StatusParam);
    r
  }

  /** `loadOrders` against the mock route as written: the route reads
      `status` with `get`, so only the first selected status survives. */
  function LoadOrdersAsWritten(db: MockDb, filter: seq<OrderStatus>): seq<Order>
  {
    GetOrdersMock(db, KdsQuery(filter))
  }

  /** As written, every loaded order has the first selected status. */
  lemma AsWrittenLoadsOnlyFirstStatus(db: MockDb, filter: seq<OrderStatus>)
    requires |filter| > 0
    ensures forall x :: x in LoadOrdersAsWritten(db, filter) ==> x.status == filter[0] && x.payment_status == Paid
  {
    OrderStatusValues();
    PaymentStatusValues();
  }

  /** A paid order that is being made, in a store holding nothing else. */
  const MakingOrder: Order := Order("1", "ABC123", "1", None, Making, 25000, Paid, Some(Cash),
                                    None, None, Timestamp("2024-01-01T10:00:00Z", 0), Timestamp("2024-01-01T10:00:00Z", 0))

  /** With the initial filter the as-written load misses a paid order whose
      status, making, is selected: the "In Progress" column stays empty. */
  lemma AsWrittenLoadMissesMaking()
    ensures var db := MockDb([MakingOrder], [], []);
      && MakingOrder.payment_status == Paid && MakingOrder.status in InitialFilter
      && LoadOrdersAsWritten(db, InitialFilter) == []
  {
    AsWrittenLoadsOnlyFirstStatus(MockDb([MakingOrder], [], []), InitialFilter);
  }

  /** `loadOrders` against a listing that honours every `status` value. */
  function LoadOrders(db: MockDb, filter: seq<OrderStatus>): seq<Order>
  {
    GetOrdersMockAll(db, KdsQuery(filter))
  }

  /** The corrected load holds exactly the paid orders whose status is
      selected (every paid order when nothing is selected), each with its
      items and table. */
  lemma LoadOrdersExact(db: MockDb, filter: seq<OrderStatus>)
    ensures forall x :: x in LoadOrders(db, filter) <==>
      exists o :: o in db.orders && o.payment_status == Paid && (|filter| == 0 || o.status in filter)
                  && x == Materialize(db, o)
  {
    var params := KdsQuery(filter);
    var wanted, payment := WantedStatuses(params), QueryGet(params, "payment_status");
    forall x ensures x in LoadOrders(db, filter) <==>
      exists o :: o in db.orders && o.payment_status == Paid && (|filter| == 0 || o.status in filter)
                  && x == Materialize(db, o)
    {
      if x in LoadOrders(db, filter) {
        var o :| o in db.orders && AnyStatusMatches(wanted, payment, o) && x == Materialize(db, o);
        KdsQueryMatches(filter, o);
      } else if exists o :: o in db.orders && o.payment_status == Paid && (|filter| == 0 || o.status in filter)
                            && x == Materialize(db, o) {
        var o :| o in db.orders && o.payment_status == Paid && (|filter| == 0 || o.status in filter)
                 && x == Materialize(db, o);
        KdsQueryMatches(filter, o);
        assert false;
      }
    }
  }

  /** The corrected listing's test, for the board's query, is "paid and
      selected". */
  lemma KdsQueryMatches(filter: seq<OrderStatus>, o: Order)
    ensures var params := KdsQuery(filter);
      (AnyStatusMatches(WantedStatuses(params), QueryGet(params, "payment_status"), o)
       <==> o.payment_status == Paid && (|filter| == 0 || o.status in filter))
  {
    WantedAreFilterNames(filter);
    assert PaymentStatusName(o.payment_status) == "paid" <==> o.payment_status == Paid;
  }

  /** The statuses the corrected listing wants are exactly the names of the
      filter's statuses. */
  lemma WantedAreFilterNames(filter: seq<OrderStatus>)
    ensures forall s :: OrderStatusName(s) in WantedStatuses(KdsQuery(filter)) <==> s in filter
    ensures |WantedStatuses(KdsQuery(filter))| == 0 <==> |filter| == 0
  {
    var wanted := WantedStatuses(KdsQuery(filter));
    OrderStatusValues();
    forall s ensures OrderStatusName(s) in wanted <==> s in filter {
      assert OrderStatusName(s) != "";
    }
    if |filter| > 0 {
      assert OrderStatusName(filter[0]) in wanted;
    } else {
      assert forall v :: v !in wanted;
    }
  }

  // ---------------------------------------------------------------------------
  // Sorting

  datatype SortKey = ByTime | ByTable
  datatype SortOrder = Asc | Desc
  datatype SortState = SortState(key: SortKey, direction: SortOrder)

  const InitialSort: SortState := SortState(ByTime, Asc)

  /** `handleSort`: the current key flips the direction, another key is
      selected ascending. */
  function HandleSort(st: SortState, key: SortKey): (r: SortState)
    ensures r.key == key
    ensures st.key == key ==> r.direction != st.direction
    ensures st.key != key ==> r.direction == Asc
  {
    if st.key == key then SortState(key, if st.direction == Asc then Desc else Asc)
    else SortState(key, Asc)
  }

  /** Pressing the current key twice restores the state; pressing a new key
      twice leaves it selected descending. */
  lemma HandleSortTwice(st: SortState, key: SortKey)
    ensures st.key == key ==> HandleSort(HandleSort(st, key), key) == st
    ensures st.key != key ==> HandleSort(HandleSort(st, key), key) == SortState(key, Desc)
  {
  }

  function NegCreatedMillis(o: Order): int
  {
    -o.created_at.millis
  }

  /** `sortedOrders` by time: comparator `timeA - timeB` ascending and
      `timeB - timeA` descending, stable as JavaScript's sort is. */
  function SortByTime(orders: seq<Order>, order: SortOrder): (r: seq<Order>)
    ensures |r| == |orders| && multiset(r) == multiset(orders)
    ensures order == Asc ==> forall i, j :: 0 <= i < j < |r| ==> r[i].created_at.millis <= r[j].created_at.millis
    ensures order == Desc ==> forall i, j :: 0 <= i < j < |r| ==> r[i].created_at.millis >= r[j].created_at.millis
  {
    if order == Asc then SortDesc(orders, NegCreatedMillis) else SortDesc(orders, CreatedMillis)
  }

  lemma {:induction false} WithNegatedKey(s: seq<Order>, t: int)
    ensures WithKey(s, NegCreatedMillis, -t) == WithKey(s, CreatedMillis, t)
  {
    if |s| > 0 {
      WithNegatedKey(s[1..], t);
    }
  }

  lemma AscendingStable(orders: seq<Order>, t: int)
    ensures WithKey(SortDesc(orders, NegCreatedMillis), CreatedMillis, t) == WithKey(orders, CreatedMillis, t)
  {
    var r := SortDesc(orders, NegCreatedMillis);
    calc {
      WithKey(r, CreatedMillis, t);
      { WithNegatedKey(r, t); }
      WithKey(r, NegCreatedMillis, -t);
      { SortStable(orders, NegCreatedMillis, -t); }
      WithKey(orders, NegCreatedMillis, -t);
      { WithNegatedKey(orders, t); }
      WithKey(orders, CreatedMillis, t);
    }
  }

  /** Orders created at the same instant keep their loaded order. */
  lemma SortByTimeStable(orders: seq<Order>, order: SortOrder, t: int)
    ensures WithKey(SortByTime(orders, order), CreatedMillis, t) == WithKey(orders, CreatedMillis, t)
  {
    if order == Asc {
      AscendingStable(orders, t);
    } else {
      SortStable(orders, CreatedMillis, t);
    }
  }

  // ---------------------------------------------------------------------------
  // Filtering and grouping

  function InFilter(filter: seq<OrderStatus>): Order -> bool
  {
    (o: Order) => o.status in filter
  }

  function HasStatus(s: OrderStatus): Order -> bool
  {
    (o: Order) => o.status == s
  }

  /** `filteredOrders`: the sorted orders whose status is selected, in sorted
      order. */
  function FilteredOrders(sorted: seq<Order>, filter: seq<OrderStatus>): (r: seq<Order>)
    ensures KeepsInOrder(r, sorted, InFilter(filter))
    ensures forall x :: x in r <==> x in sorted && x.status in filter
    ensures |r| <= |sorted|
  {
    FilterInOrder(sorted, InFilter(filter));
    Filter(sorted, InFilter(filter))
  }

  /** `ordersByStatus`: one group per selected status. */
  function OrdersByStatus(filtered: seq<Order>, filter: seq<OrderStatus>): (r: map<OrderStatus, seq<Order>>)
    ensures forall s :: s in r <==> s in filter
    ensures forall s :: s in r ==> forall x :: x in r[s] <==> x in filtered && x.status == s
    ensures forall s :: s in r ==> KeepsInOrder(r[s], filtered, HasStatus(s))
  {
    GroupsInOrder(filtered);
    map s | s in filter :: Filter(filtered, HasStatus(s))
  }

  /** Each status group keeps the display order of the orders it holds. */
  lemma GroupsInOrder(filtered: seq<Order>)
    ensures forall s :: KeepsInOrder(Filter(filtered, HasStatus(s)), filtered, HasStatus(s))
  {
    forall s {
      FilterInOrder(filtered, HasStatus(s));
    }
  }

  function GroupSizes(groups: map<OrderStatus, seq<Order>>, keys: seq<OrderStatus>): nat
  {
    if |keys| == 0 then 0 else (if keys[0] in groups then |groups[keys[0]]| else 0) + GroupSizes(groups, keys[1..])
  }

  /** A status group's size is the histogram's count for that status. */
  lemma {:induction false} GroupSizeIsCount(orders: seq<Order>, s: OrderStatus)
    ensures |Filter(orders, HasStatus(s))| == Reports.CountStatus(orders, s)
  {
    if |orders| > 0 {
      var prefix, last := orders[..|orders| - 1], orders[|orders| - 1];
      GroupSizeIsCount(prefix, s);
      assert orders == prefix + [last];
      FilterConcat(prefix, [last], HasStatus(s));
      assert [last][1..] == [];
    }
  }

  lemma {:induction false} GroupSizesAreCounts(filtered: seq<Order>, filter: seq<OrderStatus>, keys: seq<OrderStatus>)
    requires forall k :: k in keys ==> k in filter
    ensures GroupSizes(OrdersByStatus(filtered, filter), keys) == Reports.SumCounts(filtered, keys)
  {
    if |keys| > 0 {
      GroupSizesAreCounts(filtered, filter, keys[1..]);
      GroupSizeIsCount(filtered, keys[0]);
    }
  }

  lemma {:induction false} OccursOnce(keys: seq<OrderStatus>, s: OrderStatus)
    requires Distinct(keys)
    ensures Reports.Occurrences(keys, s) == if s in keys then 1 else 0
  {
    if |keys| > 0 {
      OccursOnce(keys[1..], s);
      if keys[0] == s {
        assert s !in keys[1..] by {
          forall i | 0 <= i < |keys[1..]| ensures keys[1..][i] != s {
            assert keys[1..][i] == keys[i + 1];
          }
        }
      }
    }
  }

  lemma {:induction false} CountsPartition(orders: seq<Order>, keys: seq<OrderStatus>)
    requires Distinct(keys)
    requires forall i :: 0 <= i < |orders| ==> orders[i].status in keys
    ensures Reports.SumCounts(orders, keys) == |orders|
  {
    if |orders| == 0 {
      Reports.SumCountsEmpty(keys);
    } else {
      var prefix := orders[..|orders| - 1];
      assert forall i :: 0 <= i < |prefix| ==> prefix[i] == orders[i];
      CountsPartition(prefix, keys);
      Reports.SumCountsStep(orders, keys);
      OccursOnce(keys, orders[|orders| - 1].status);
    }
  }

  /** With a duplicate-free filter the groups partition the filtered list:
      every filtered order is in the group of its status and in no other,
      and the group sizes add up to the list's length. */
  lemma GroupsPartition(sorted: seq<Order>, filter: seq<OrderStatus>)
    requires Distinct(filter)
    ensures var filtered := FilteredOrders(sorted, filter);
      var groups := OrdersByStatus(filtered, filter);
      && (forall x :: x in filtered ==> x.status in groups && x in groups[x.status])
      && (forall s, x :: s in groups && x in groups[s] ==> s == x.status)
      && GroupSizes(groups, filter) == |filtered|
  {
    var filtered := FilteredOrders(sorted, filter);
    GroupSizesAreCounts(filtered, filter, filter);
    assert forall i :: 0 <= i < |filtered| ==> filtered[i] in filtered;
    CountsPartition(filtered, filter);
  }

  // ---------------------------------------------------------------------------
  // Urgent count

  function UrgentAt(now: int): Order -> bool
  {
    (o: Order) => now - o.created_at.millis > 30 * 60 * 1000
  }

  /** The header's urgent count: the loaded orders more than 30 minutes old. */
  function UrgentCount(orders: seq<Order>, now: int): nat
  {
    Count(orders, UrgentAt(now))
  }

  /** The header counts exactly the orders whose cards show as urgent. */
  lemma UrgentCountMatchesCards(orders: seq<Order>, now: int)
    ensures UrgentCount(orders, now) == Count(orders, (o: Order) => IsUrgent(now - o.created_at.millis))
  {
    FilterCongruent(orders, UrgentAt(now), (o: Order) => IsUrgent(now - o.created_at.millis));
  }

  /** As time passes over the same list the urgent count never falls, and it
      never exceeds the number of orders. */
  lemma UrgentCountGrows(orders: seq<Order>, now: int, later: int)
    requires now <= later
    ensures UrgentCount(orders, now) <= UrgentCount(orders, later) <= |orders|
  {
    CountMonotone(orders, UrgentAt(now), UrgentAt(later));
  }

  // ---------------------------------------------------------------------------
  // Local update after a status change

  function ReplaceCode(code: string, updated: Order): Order -> Order
  {
    (o: Order) => if o.code == code then updated else o
  }

  function CodeIsNot(code: string): Order -> bool
  {
    (o: Order) => o.code != code
  }

  /** `handleStatusUpdate` after a successful PATCH: the order with the code
      is replaced by the returned one, then dropped if its new status is not
      selected. */
  function ApplyStatusUpdate(orders: seq<Order>, code: string, updated: Order, newStatus: OrderStatus,
                             filter: seq<OrderStatus>): (r: seq<Order>)
    ensures newStatus in filter ==>
      && |r| == |orders|
      && forall i :: 0 <= i < |orders| ==> r[i] == if orders[i].code == code then updated else orders[i]
    ensures newStatus !in filter ==> forall x :: x in r ==> x.code != code
    ensures forall x :: x in orders && x.code != code ==> x in r
    ensures newStatus !in filter && updated.code == code ==> r == Filter(orders, CodeIsNot(code))
  {
    var replaced := Seqs.Map(orders, ReplaceCode(code, updated));
    if newStatus in filter then replaced
    else
      DropAfterReplace(orders, code, updated);
      Filter(replaced, CodeIsNot(code))
  }

  /** Replacing an order and then dropping its code is dropping it. */
  lemma {:induction false} DropAfterReplace(orders: seq<Order>, code: string, updated: Order)
    ensures updated.code == code ==>
      Filter(Seqs.Map(orders, ReplaceCode(code, updated)), CodeIsNot(code)) == Filter(orders, CodeIsNot(code))
  {
    if updated.code == code && |orders| > 0 {
      DropAfterReplace(orders[1..], code, updated);
      var m := Seqs.Map(orders, ReplaceCode(code, updated));
      assert m[1..] == Seqs.Map(orders[1..], ReplaceCode(code, updated));
    }
  }
}
