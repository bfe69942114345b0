/** The sales aggregation of `src/app/api/admin/reports/route.ts`: a pure
    reduction over the paid orders the query returns. The query's rows, the
    date bounds and the calendar ("the date string of `i` days ago") are
    inputs. */
module Reports {
  import opened Wrappers
  import opened Text
  import opened Seqs
  import opened Types
  import opened Sorting

  // ---------------------------------------------------------------------------
  // The query

  /** A `date_from`/`date_to` parameter; an absent or empty one sets no
      bound. */
  predicate BoundSet(b: Option<Timestamp>)
  {
    b.Some? && b.value.text != ""
  }

  /** `.eq('payment_status', 'paid')`, then `.gte`/`.lte` on `created_at`
      for each bound that is set. */
  predicate InReportRange(dateFrom: Option<Timestamp>, dateTo: Option<Timestamp>, o: Order)
  {
    && o.payment_status == Paid
    && (!BoundSet(dateFrom) || o.created_at.millis >= dateFrom.value.millis)
    && (!BoundSet(dateTo) || o.created_at.millis <= dateTo.value.millis)
  }

  function InRange(dateFrom: Option<Timestamp>, dateTo: Option<Timestamp>): Order -> bool
  {
    (o: Order) => InReportRange(dateFrom, dateTo, o)
  }

  /** The rows the report is computed from: the paid rows within the bounds,
      newest first (`.order('created_at', { ascending: false })`). */
  function ReportOrders(rows: seq<Order>, dateFrom: Option<Timestamp>, dateTo: Option<Timestamp>): (r: seq<Order>)
    ensures forall o :: o in r <==>
      (&& o in rows && o.payment_status == Paid
       && (!BoundSet(dateFrom) || dateFrom.value.millis <= o.created_at.millis)
       && (!BoundSet(dateTo) || o.created_at.millis <= dateTo.value.millis))
    ensures forall i :: 0 <= i < |r| ==> r[i].payment_status == Paid
    ensures forall i, j :: 0 <= i < j < |r| ==> r[i].created_at.millis >= r[j].created_at.millis
    ensures multiset(r) == multiset(Filter(rows, InRange(dateFrom, dateTo)))
  {
    var matching := Filter(rows, InRange(dateFrom, dateTo));
    var r := SortDesc(matching, CreatedMillis);
    SameElements(r, matching);
    r
  }

  // ---------------------------------------------------------------------------
  // Status histogram

  /** How many of `orders` have status `s`. */
  function CountStatus(orders: seq<Order>, s: OrderStatus): nat
  {
    if |orders| == 0 then 0
    else CountStatus(orders[..|orders| - 1], s) + (if orders[|orders| - 1].status == s then 1 else 0)
  }

  /** The `orders_by_status` reduction: `acc[status] = (acc[status] || 0) + 1`.
      A status is a key exactly when some order has it, and its value is the
      number of such orders. */
  function StatusHistogram(orders: seq<Order>): (h: map<OrderStatus, nat>)
    ensures forall s :: s in h <==> CountStatus(orders, s) > 0
    ensures forall s :: s in h ==> h[s] == CountStatus(orders, s)
  {
    if |orders| == 0 then map[]
    else
      var h := StatusHistogram(orders[..|orders| - 1]);
      var s := orders[|orders| - 1].status;
      h[s := (if s in h then h[s] else 0) + 1]
  }

  /** A status is counted exactly when some order carries it. */
  lemma {:induction false} CountStatusPositive(orders: seq<Order>, s: OrderStatus)
    ensures CountStatus(orders, s) > 0 <==> exists i :: 0 <= i < |orders| && orders[i].status == s
  {
    if |orders| > 0 {
      var prefix := orders[..|orders| - 1];
      CountStatusPositive(prefix, s);
      assert forall i :: 0 <= i < |prefix| ==> prefix[i] == orders[i];
      if orders[|orders| - 1].status != s {
        forall i | 0 <= i < |orders| && orders[i].status == s ensures 0 <= i < |prefix| && prefix[i].status == s {
        }
      }
    }
  }

  /** The histogram's value for `s`, zero when `s` is absent. */
  function HistogramAt(h: map<OrderStatus, nat>, s: OrderStatus): nat
  {
    if s in h then h[s] else 0
  }

  function HistogramSum(h: map<OrderStatus, nat>, keys: seq<OrderStatus>): nat
  {
    if |keys| == 0 then 0 else HistogramAt(h, keys[0]) + HistogramSum(h, keys[1..])
  }

  function SumCounts(orders: seq<Order>, keys: seq<OrderStatus>): nat
  {
    if |keys| == 0 then 0 else CountStatus(orders, keys[0]) + SumCounts(orders, keys[1..])
  }

  function Occurrences(keys: seq<OrderStatus>, s: OrderStatus): nat
  {
    if |keys| == 0 then 0 else (if keys[0] == s then 1 else 0) + Occurrences(keys[1..], s)
  }

  lemma {:induction false} SumCountsStep(orders: seq<Order>, keys: seq<OrderStatus>)
    requires |orders| > 0
    ensures SumCounts(orders, keys)
      == SumCounts(orders[..|orders| - 1], keys) + Occurrences(keys, orders[|orders| - 1].status)
  {
    if |keys| > 0 {
      SumCountsStep(orders, keys[1..]);
    }
  }

  lemma OccurrencesInAll(s: OrderStatus)
    ensures Occurrences(AllOrderStatuses, s) == 1
  {
    var a := AllOrderStatuses;
    assert a[1..] == [Confirmed, Making, Ready, Delivered, Cancelled];
    assert a[1..][1..] == [Making, Ready, Delivered, Cancelled];
    assert a[1..][1..][1..] == [Ready, Delivered, Cancelled];
    assert a[1..][1..][1..][1..] == [Delivered, Cancelled];
    assert a[1..][1..][1..][1..][1..] == [Cancelled];
    assert a[1..][1..][1..][1..][1..][1..] == [];
  }

  /** Every order falls under exactly one status. */
  lemma {:induction false} CountsSumToLength(orders: seq<Order>)
    ensures SumCounts(orders, AllOrderStatuses) == |orders|
  {
    if |orders| > 0 {
      var prefix := orders[..|orders| - 1];
      CountsSumToLength(prefix);
      SumCountsStep(orders, AllOrderStatuses);
      OccurrencesInAll(orders[|orders| - 1].status);
      assert SumCounts(orders, AllOrderStatuses) == SumCounts(prefix, AllOrderStatuses) + 1;
    } else {
      SumCountsEmpty(AllOrderStatuses);
    }
  }

  lemma {:induction false} SumCountsEmpty(keys: seq<OrderStatus>)
    ensures SumCounts([], keys) == 0
  {
    if |keys| > 0 {
      SumCountsEmpty(keys[1..]);
    }
  }

  lemma {:induction false} HistogramSumIsSumCounts(orders: seq<Order>, keys: seq<OrderStatus>)
    ensures HistogramSum(StatusHistogram(orders), keys) == SumCounts(orders, keys)
  {
    if |keys| > 0 {
      HistogramSumIsSumCounts(orders, keys[1..]);
    }
  }

  /** The `orders_by_status` counts add up to the number of orders, and the
      statuses with no order are absent from the map. */
  lemma HistogramTotal(orders: seq<Order>)
    ensures HistogramSum(StatusHistogram(orders), AllOrderStatuses) == |orders|
    ensures forall s :: s in StatusHistogram(orders) <==> exists i :: 0 <= i < |orders| && orders[i].status == s
  {
    HistogramSumIsSumCounts(orders, AllOrderStatuses);
    CountsSumToLength(orders);
    forall s ensures CountStatus(orders, s) > 0 <==> exists i :: 0 <= i < |orders| && orders[i].status == s {
      CountStatusPositive(orders, s);
    }
  }

  // ---------------------------------------------------------------------------
  // Per-item statistics

  /** One value of the `itemStats` map, together with its key. */
  datatype ItemStat = ItemStat(item_id: string, item: Option<MenuItem>, quantity: int, revenue: int)

  /** Every order line of `orders`, order by order; an order without
      `order_items` contributes none. */
  function Lines(orders: seq<Order>): seq<OrderItem>
  {
    if |orders| == 0 then []
    else Lines(orders[..|orders| - 1]) + orders[|orders| - 1].order_items.GetOr([])
  }

  /** `Σ quantity` over the lines for `id`. */
  function QuantityOf(lines: seq<OrderItem>, id: string): int
  {
    if |lines| == 0 then 0
    else
      var last := lines[|lines| - 1];
      QuantityOf(lines[..|lines| - 1], id) + (if last.item_id == id then last.quantity else 0)
  }

  /** `Σ quantity × price` over the lines for `id`. */
  function RevenueOf(lines: seq<OrderItem>, id: string): int
  {
    if |lines| == 0 then 0
    else
      var last := lines[|lines| - 1];
      RevenueOf(lines[..|lines| - 1], id) + (if last.item_id == id then last.quantity * last.price else 0)
  }

  /** Each item id has at most one entry. */
  predicate IdsDistinct(stats: seq<ItemStat>)
  {
    forall i, j :: 0 <= i < j < |stats| ==> stats[i].item_id != stats[j].item_id
  }

  /** Every line's item id has an entry. */
  predicate CoversLines(lines: seq<OrderItem>, stats: seq<ItemStat>)
  {
    forall j :: 0 <= j < |lines| ==> exists i :: 0 <= i < |stats| && stats[i].item_id == lines[j].item_id
  }

  /** The first line with the entry's id carries the entry's item. */
  ghost predicate FirstLineFor(lines: seq<OrderItem>, st: ItemStat)
  {
    exists j :: 0 <= j < |lines| && lines[j].item_id == st.item_id && lines[j].item == st.item
      && forall j' :: 0 <= j' < j ==> lines[j'].item_id != st.item_id
  }

  ghost predicate FirstLines(lines: seq<OrderItem>, stats: seq<ItemStat>)
  {
    forall i :: 0 <= i < |stats| ==> FirstLineFor(lines, stats[i])
  }

  /** Each entry's quantity and revenue are the sums over its lines. */
  predicate SumsMatch(lines: seq<OrderItem>, stats: seq<ItemStat>)
  {
    forall i :: 0 <= i < |stats| ==>
      stats[i].quantity == QuantityOf(lines, stats[i].item_id)
      && stats[i].revenue == RevenueOf(lines, stats[i].item_id)
  }

  function LineIdIs(id: string): OrderItem -> bool
  {
    (l: OrderItem) => l.item_id == id
  }

  /** The index of the first line for `id`, or -1. */
  function FirstLineIndex(lines: seq<OrderItem>, id: string): int
  {
    FindIndex(lines, LineIdIs(id))
  }

  /** The entries come in the order their ids first occur among the lines:
      the insertion order of the `Map`. */
  predicate FirstSeenOrder(lines: seq<OrderItem>, stats: seq<ItemStat>)
  {
    forall i, j :: 0 <= i < j < |stats| ==>
      FirstLineIndex(lines, stats[i].item_id) < FirstLineIndex(lines, stats[j].item_id)
  }

  /** `stats` is what the `itemStats` fold holds after `lines`: one entry per
      distinct item id, in the order the ids first occur, carrying the item
      of that id's first line and the sums of its quantities and revenues. */
  ghost predicate StatsFor(lines: seq<OrderItem>, stats: seq<ItemStat>)
  {
    && IdsDistinct(stats) && CoversLines(lines, stats) && FirstLines(lines, stats) && SumsMatch(lines, stats)
    && FirstSeenOrder(lines, stats)
  }

  function IdIs(id: string): ItemStat -> bool
  {
    (st: ItemStat) => st.item_id == id
  }

  /** One step of the fold: add to the entry for the line's id, or start one
      at the end of the map's insertion order. */
  function AddLine(stats: seq<ItemStat>, line: OrderItem): seq<ItemStat>
  {
    var k := FindIndex(stats, IdIs(line.item_id));
    if k == -1 then stats + [ItemStat(line.item_id, line.item, line.quantity, line.quantity * line.price)]
    else stats[k := stats[k].(quantity := stats[k].quantity + line.quantity,
                              revenue := stats[k].revenue + line.quantity * line.price)]
  }

  /** What `AddLine` does to the entries, position by position. */
  lemma AddLineShape(stats: seq<ItemStat>, line: OrderItem)
    ensures var r := AddLine(stats, line);
      && (forall i :: 0 <= i < |stats| ==> r[i].item_id == stats[i].item_id && r[i].item == stats[i].item)
      && ((forall i :: 0 <= i < |stats| ==> stats[i].item_id != line.item_id) ==>
            r == stats + [ItemStat(line.item_id, line.item, line.quantity, line.quantity * line.price)])
      && ((exists i :: 0 <= i < |stats| && stats[i].item_id == line.item_id) ==> |r| == |stats|)
  {
  }

  lemma SumsStep(lines: seq<OrderItem>, line: OrderItem, id: string)
    ensures QuantityOf(lines + [line], id) == QuantityOf(lines, id) + (if line.item_id == id then line.quantity else 0)
    ensures RevenueOf(lines + [line], id) == RevenueOf(lines, id) + (if line.item_id == id then line.quantity * line.price else 0)
  {
    assert (lines + [line])[..|lines|] == lines;
  }

  lemma AddLineDistinct(stats: seq<ItemStat>, line: OrderItem)
    requires IdsDistinct(stats)
    ensures IdsDistinct(AddLine(stats, line))
  {
    AddLineShape(stats, line);
  }

  lemma AddLineCovers(lines: seq<OrderItem>, stats: seq<ItemStat>, line: OrderItem)
    requires CoversLines(lines, stats)
    ensures CoversLines(lines + [line], AddLine(stats, line))
  {
    var lines' := lines + [line];
    var r := AddLine(stats, line);
    var k := FindIndex(stats, IdIs(line.item_id));
    AddLineShape(stats, line);
    forall j | 0 <= j < |lines'| ensures exists i :: 0 <= i < |r| && r[i].item_id == lines'[j].item_id {
      if j == |lines| {
        if k == -1 {
          assert r[|stats|].item_id == lines'[j].item_id;
        } else {
          assert r[k].item_id == lines'[j].item_id;
        }
      } else {
        assert lines'[j] == lines[j];
        var i :| 0 <= i < |stats| && stats[i].item_id == lines[j].item_id;
        assert r[i].item_id == lines'[j].item_id;
      }
    }
  }

  lemma FirstLineExtends(lines: seq<OrderItem>, st: ItemStat, line: OrderItem)
    requires FirstLineFor(lines, st)
    ensures FirstLineFor(lines + [line], st)
  {
    var j :| 0 <= j < |lines| && lines[j].item_id == st.item_id && lines[j].item == st.item
      && forall j' :: 0 <= j' < j ==> lines[j'].item_id != st.item_id;
    assert (lines + [line])[j] == lines[j];
    assert forall j' :: 0 <= j' < j ==> (lines + [line])[j'] == lines[j'];
  }

  lemma AddLineFirst(lines: seq<OrderItem>, stats: seq<ItemStat>, line: OrderItem)
    requires CoversLines(lines, stats) && FirstLines(lines, stats)
    ensures FirstLines(lines + [line], AddLine(stats, line))
  {
    var lines' := lines + [line];
    var r := AddLine(stats, line);
    AddLineShape(stats, line);
    forall i | 0 <= i < |r| ensures FirstLineFor(lines', r[i]) {
      if i < |stats| {
        FirstLineExtends(lines, stats[i], line);
        assert r[i].item_id == stats[i].item_id && r[i].item == stats[i].item;
      } else {
        assert forall j :: 0 <= j < |lines| ==> lines[j].item_id != line.item_id by {
          forall j | 0 <= j < |lines| ensures lines[j].item_id != line.item_id {
            var i' :| 0 <= i' < |stats| && stats[i'].item_id == lines[j].item_id;
          }
        }
        assert lines'[|lines|] == line;
        assert forall j :: 0 <= j < |lines| ==> lines'[j] == lines[j];
      }
    }
  }

  lemma AddLineSums(lines: seq<OrderItem>, stats: seq<ItemStat>, line: OrderItem)
    requires IdsDistinct(stats) && CoversLines(lines, stats) && SumsMatch(lines, stats)
    ensures SumsMatch(lines + [line], AddLine(stats, line))
  {
    var r := AddLine(stats, line);
    var k := FindIndex(stats, IdIs(line.item_id));
    AddLineShape(stats, line);
    forall i | 0 <= i < |r|
      ensures r[i].quantity == QuantityOf(lines + [line], r[i].item_id)
        && r[i].revenue == RevenueOf(lines + [line], r[i].item_id)
    {
      SumsStep(lines, line, r[i].item_id);
      if k == -1 && i == |stats| {
        assert forall j :: 0 <= j < |lines| ==> lines[j].item_id != line.item_id by {
          forall j | 0 <= j < |lines| ensures lines[j].item_id != line.item_id {
            var i' :| 0 <= i' < |stats| && stats[i'].item_id == lines[j].item_id;
          }
        }
        NoLinesNoSums(lines, line.item_id);
      }
    }
  }

  lemma {:induction false} NoLinesNoSums(lines: seq<OrderItem>, id: string)
    requires forall j :: 0 <= j < |lines| ==> lines[j].item_id != id
    ensures QuantityOf(lines, id) == 0 && RevenueOf(lines, id) == 0
  {
    if |lines| > 0 {
      NoLinesNoSums(lines[..|lines| - 1], id);
    }
  }

  lemma AddLineKeepsStats(lines: seq<OrderItem>, stats: seq<ItemStat>, line: OrderItem)
    requires StatsFor(lines, stats)
    ensures StatsFor(lines + [line], AddLine(stats, line))
  {
    AddLineDistinct(stats, line);
    AddLineCovers(lines, stats, line);
    AddLineFirst(lines, stats, line);
    AddLineSums(lines, stats, line);
    AddLineOrder(lines, stats, line);
  }

  /** An id with an entry occurs among the lines. */
  lemma EntryHasLine(lines: seq<OrderItem>, st: ItemStat)
    requires FirstLineFor(lines, st)
    ensures 0 <= FirstLineIndex(lines, st.item_id) < |lines|
  {
    var j :| 0 <= j < |lines| && lines[j].item_id == st.item_id && lines[j].item == st.item
      && forall j' :: 0 <= j' < j ==> lines[j'].item_id != st.item_id;
    assert LineIdIs(st.item_id)(lines[j]);
  }

  /** A later line does not move the first line of an id already seen. */
  lemma FirstLineIndexKept(lines: seq<OrderItem>, line: OrderItem, id: string)
    requires FirstLineIndex(lines, id) != -1
    ensures FirstLineIndex(lines + [line], id) == FirstLineIndex(lines, id)
  {
    var k := FirstLineIndex(lines, id);
    assert (lines + [line])[k] == lines[k];
    assert forall j :: 0 <= j < k ==> (lines + [line])[j] == lines[j];
    FindIndexSamePrefix(lines, lines + [line], LineIdIs(id), k);
  }

  /** The first line of a new id is the line just added. */
  lemma FirstLineIndexNew(lines: seq<OrderItem>, line: OrderItem)
    requires forall j :: 0 <= j < |lines| ==> lines[j].item_id != line.item_id
    ensures FirstLineIndex(lines + [line], line.item_id) == |lines|
  {
    var t := lines + [line];
    assert LineIdIs(line.item_id)(t[|lines|]);
    assert forall j :: 0 <= j < |lines| ==> t[j] == lines[j];
  }

  lemma AddLineOrder(lines: seq<OrderItem>, stats: seq<ItemStat>, line: OrderItem)
    requires CoversLines(lines, stats) && FirstLines(lines, stats) && FirstSeenOrder(lines, stats)
    ensures FirstSeenOrder(lines + [line], AddLine(stats, line))
  {
    forall i | 0 <= i < |stats| ensures 0 <= FirstLineIndex(lines, stats[i].item_id) < |lines| {
      EntryHasLine(lines, stats[i]);
    }
    SeenIdsKeepFirstLine(lines, stats, line);
    if FindIndex(stats, IdIs(line.item_id)) == -1 {
      NewIdHasNoLine(lines, stats, line.item_id);
      AddLineOrderNew(lines, stats, line);
    } else {
      AddLineOrderSeen(lines, stats, line);
    }
  }

  /** A line of a new id appends an entry that is first seen last. */
  lemma AddLineOrderNew(lines: seq<OrderItem>, stats: seq<ItemStat>, line: OrderItem)
    requires FirstSeenOrder(lines, stats)
    requires FindIndex(stats, IdIs(line.item_id)) == -1
    requires forall j :: 0 <= j < |lines| ==> lines[j].item_id != line.item_id
    requires forall i :: 0 <= i < |stats| ==> FirstLineIndex(lines, stats[i].item_id) < |lines|
    requires forall i :: 0 <= i < |stats| ==>
      FirstLineIndex(lines + [line], stats[i].item_id) == FirstLineIndex(lines, stats[i].item_id)
    ensures FirstSeenOrder(lines + [line], AddLine(stats, line))
  {
    var added := ItemStat(line.item_id, line.item, line.quantity, line.quantity * line.price);
    assert AddLine(stats, line) == stats + [added];
    FirstLineIndexNew(lines, line);
    AppendKeepsOrder(lines + [line], stats, added);
  }

  /** A line of a seen id changes no entry's id. */
  lemma AddLineOrderSeen(lines: seq<OrderItem>, stats: seq<ItemStat>, line: OrderItem)
    requires FirstSeenOrder(lines, stats)
    requires FindIndex(stats, IdIs(line.item_id)) != -1
    requires forall i :: 0 <= i < |stats| ==>
      FirstLineIndex(lines + [line], stats[i].item_id) == FirstLineIndex(lines, stats[i].item_id)
    ensures FirstSeenOrder(lines + [line], AddLine(stats, line))
  {
    var k := FindIndex(stats, IdIs(line.item_id));
    var r := AddLine(stats, line);
    assert r == stats[k := r[k]] && r[k].item_id == stats[k].item_id;
    SameIdsKeepOrder(lines + [line], stats, r);
  }

  lemma SeenIdsKeepFirstLine(lines: seq<OrderItem>, stats: seq<ItemStat>, line: OrderItem)
    requires forall i :: 0 <= i < |stats| ==> 0 <= FirstLineIndex(lines, stats[i].item_id) < |lines|
    ensures forall i :: 0 <= i < |stats| ==>
      FirstLineIndex(lines + [line], stats[i].item_id) == FirstLineIndex(lines, stats[i].item_id)
  {
    forall i | 0 <= i < |stats|
      ensures FirstLineIndex(lines + [line], stats[i].item_id) == FirstLineIndex(lines, stats[i].item_id)
    {
      FirstLineIndexKept(lines, line, stats[i].item_id);
    }
  }

  /** An entry whose id is first seen after every other keeps the order. */
  lemma AppendKeepsOrder(lines: seq<OrderItem>, stats: seq<ItemStat>, st: ItemStat)
    requires FirstSeenOrder(lines, stats)
    requires forall i :: 0 <= i < |stats| ==> FirstLineIndex(lines, stats[i].item_id) < FirstLineIndex(lines, st.item_id)
    ensures FirstSeenOrder(lines, stats + [st])
  {
    var r := stats + [st];
    forall i, j | 0 <= i < j < |r|
      ensures FirstLineIndex(lines, r[i].item_id) < FirstLineIndex(lines, r[j].item_id)
    {
      if j < |stats| {
        assert r[i] == stats[i] && r[j] == stats[j];
      } else {
        assert r[i] == stats[i] && r[j] == st;
      }
    }
  }

  /** Entries with the same ids in the same places keep the order. */
  lemma SameIdsKeepOrder(lines: seq<OrderItem>, stats: seq<ItemStat>, r: seq<ItemStat>)
    requires FirstSeenOrder(lines, stats)
    requires |r| == |stats| && forall i :: 0 <= i < |r| ==> r[i].item_id == stats[i].item_id
    ensures FirstSeenOrder(lines, r)
  {
  }

  /** An id without an entry occurs on no line. */
  lemma NewIdHasNoLine(lines: seq<OrderItem>, stats: seq<ItemStat>, id: string)
    requires CoversLines(lines, stats)
    requires forall i :: 0 <= i < |stats| ==> stats[i].item_id != id
    ensures forall j :: 0 <= j < |lines| ==> lines[j].item_id != id
  {
    forall j | 0 <= j < |lines| ensures lines[j].item_id != id {
      var i' :| 0 <= i' < |stats| && stats[i'].item_id == lines[j].item_id;
    }
  }

  /** The `itemStats` fold over the lines, in their order. */
  function ItemStats(lines: seq<OrderItem>): (r: seq<ItemStat>)
    ensures StatsFor(lines, r)
  {
    if |lines| == 0 then []
    else
      var prefix, last := lines[..|lines| - 1], lines[|lines| - 1];
      var stats := ItemStats(prefix);
      StatsExtend(lines, prefix, stats, last);
      AddLine(stats, last)
  }

  /** One more line extends the fold's invariant. */
  lemma StatsExtend(lines: seq<OrderItem>, prefix: seq<OrderItem>, stats: seq<ItemStat>, last: OrderItem)
    requires |lines| > 0 && prefix == lines[..|lines| - 1] && last == lines[|lines| - 1]
    requires StatsFor(prefix, stats)
    ensures StatsFor(lines, AddLine(stats, last))
  {
    assert prefix + [last] == lines;
    AddLineKeepsStats(prefix, stats, last);
  }

  // ---------------------------------------------------------------------------
  // Top ten by quantity

  function Quantity(st: ItemStat): int
  {
    st.quantity
  }

  /** `.sort((a, b) => b.quantity - a.quantity)`: largest quantity first,
      entries of equal quantity in their input order. */
  function SortByQuantity(s: seq<ItemStat>): (r: seq<ItemStat>)
    ensures forall i, j :: 0 <= i < j < |r| ==> r[i].quantity >= r[j].quantity
    ensures multiset(r) == multiset(s)
    ensures |r| == |s|
    ensures forall q :: WithKey(r, Quantity, q) == WithKey(s, Quantity, q)
  {
    var r := SortDesc(s, Quantity);
    forall q ensures WithKey(r, Quantity, q) == WithKey(s, Quantity, q) {
      SortStable(s, Quantity, q);
    }
    r
  }

  function Take<T>(s: seq<T>, n: nat): (r: seq<T>)
    ensures |r| == if |s| < n then |s| else n
    ensures r == s[..|r|]
  {
    if |s| < n then s else s[..n]
  }

  function ToPopular(st: ItemStat): PopularItem
  {
    PopularItem(st.item, st.quantity, st.revenue)
  }

  /** `popular_items`: the ten entries of largest quantity, largest first. */
  function PopularItems(stats: seq<ItemStat>): (r: seq<PopularItem>)
    ensures |r| <= 10 && (|stats| >= 10 ==> |r| == 10) && (|stats| < 10 ==> |r| == |stats|)
    ensures forall i, j :: 0 <= i < j < |r| ==> r[i].quantity >= r[j].quantity
  {
    Map(Take(SortByQuantity(stats), 10), ToPopular)
  }

  /** Nothing left out of the top ten sells more than an entry that made it. */
  lemma PopularItemsAreTop(stats: seq<ItemStat>)
    ensures var top := Take(SortByQuantity(stats), 10);
      && PopularItems(stats) == Map(top, ToPopular)
      && forall x, i :: x in stats && x !in top && 0 <= i < |top| ==> x.quantity <= top[i].quantity
  {
    var sorted := SortByQuantity(stats);
    var top := Take(sorted, 10);
    forall x, i | x in stats && x !in top && 0 <= i < |top| ensures x.quantity <= top[i].quantity {
      assert x in multiset(sorted);
      var j :| 0 <= j < |sorted| && sorted[j] == x;
      assert top[i] == sorted[i];
    }
  }

  // ---------------------------------------------------------------------------
  // Daily series

  /** `last7Days`: the date strings of 0..6 days ago, reversed so that the
      oldest comes first. `daysAgo(i)` is the date string of `i` days ago. */
  function Last7Days(daysAgo: nat -> string): (r: seq<string>)
    ensures |r| == 7
    ensures forall i :: 0 <= i < 7 ==> r[i] == daysAgo(6 - i)
    ensures r[6] == daysAgo(0)
  {
    Reverse(seq(7, (i: int) requires 0 <= i < 7 => daysAgo(i)))
  }

  function StartsOn(date: string): Order -> bool
  {
    (o: Order) => StartsWith(o.created_at.text, date)
  }

  function DailySaleOf(orders: seq<Order>, date: string): DailySale
  {
    var dayOrders := Filter(orders, StartsOn(date));
    DailySale(date, |dayOrders|, SumTotals(dayOrders))
  }

  /** `dailySales`: for each date, the orders whose `created_at` text begins
      with it, counted and summed. */
  function DailySales(orders: seq<Order>, days: seq<string>): (r: seq<DailySale>)
    ensures |r| == |days|
    ensures forall i :: 0 <= i < |days| ==>
      && r[i].date == days[i]
      && r[i].orders == Count(orders, StartsOn(days[i]))
      && r[i].revenue == SumTotals(Filter(orders, StartsOn(days[i])))
  {
    Map(days, (d: string) => DailySaleOf(orders, d))
  }

  /** With no orders, every day shows zero orders and zero revenue. */
  lemma DailySalesEmpty(days: seq<string>)
    ensures forall i :: 0 <= i < |days| ==> DailySales([], days)[i] == DailySale(days[i], 0, 0)
  {
  }

  /** No timestamp text begins with two different dates of one length. */
  ghost predicate DatesSeparate(days: seq<string>)
  {
    && (forall i :: 0 <= i < |days| ==> |days[i]| == |days[0]|)
    && Distinct(days)
  }

  function SumDailyOrders(s: seq<DailySale>): nat
  {
    if |s| == 0 then 0 else s[0].orders + SumDailyOrders(s[1..])
  }

  /** The number of `days` whose date begins `t`. */
  function MatchingDays(t: string, days: seq<string>): nat
  {
    if |days| == 0 then 0 else (if StartsWith(t, days[0]) then 1 else 0) + MatchingDays(t, days[1..])
  }

  lemma {:induction false} MatchingDaysAtMostOne(t: string, days: seq<string>)
    requires DatesSeparate(days)
    ensures MatchingDays(t, days) <= 1
  {
    if |days| > 1 {
      var rest := days[1..];
      assert DatesSeparate(rest) by {
        assert forall i :: 0 <= i < |rest| ==> rest[i] == days[i + 1];
        assert forall i :: 0 <= i < |rest| ==> |rest[i]| == |rest[0]| by {
          assert |rest[0]| == |days[0]|;
        }
      }
      MatchingDaysAtMostOne(t, rest);
      if StartsWith(t, days[0]) {
        MatchingDaysNone(t, days[0], rest);
      }
    }
  }

  lemma {:induction false} MatchingDaysNone(t: string, d: string, rest: seq<string>)
    requires StartsWith(t, d)
    requires forall i :: 0 <= i < |rest| ==> |rest[i]| == |d| && rest[i] != d
    ensures MatchingDays(t, rest) == 0
  {
    if |rest| > 0 {
      assert t[..|d|] == d;
      assert !StartsWith(t, rest[0]);
      MatchingDaysNone(t, d, rest[1..]);
    }
  }

  lemma {:induction false} SumDailyOrdersStep(orders: seq<Order>, days: seq<string>)
    requires |orders| > 0
    ensures SumDailyOrders(DailySales(orders, days))
      == SumDailyOrders(DailySales(orders[..|orders| - 1], days)) + MatchingDays(orders[|orders| - 1].created_at.text, days)
  {
    var prefix := orders[..|orders| - 1];
    var o := orders[|orders| - 1];
    if |days| > 0 {
      assert orders == prefix + [o];
      FilterConcat(prefix, [o], StartsOn(days[0]));
      SumDailyOrdersStep(orders, days[1..]);
      assert DailySales(orders, days)[1..] == DailySales(orders, days[1..]);
      assert DailySales(prefix, days)[1..] == DailySales(prefix, days[1..]);
    }
  }

  /** When the dates are distinct and of one length, each order is counted on
      at most one day, so the daily counts add up to at most the number of
      orders. */
  lemma {:induction false} DailyOrdersAtMostTotal(orders: seq<Order>, days: seq<string>)
    requires DatesSeparate(days)
    ensures SumDailyOrders(DailySales(orders, days)) <= |orders|
  {
    if |orders| == 0 {
      DailySalesZero(days);
    } else {
      DailyOrdersAtMostTotal(orders[..|orders| - 1], days);
      SumDailyOrdersStep(orders, days);
      MatchingDaysAtMostOne(orders[|orders| - 1].created_at.text, days);
    }
  }

  lemma {:induction false} DailySalesZero(days: seq<string>)
    ensures SumDailyOrders(DailySales([], days)) == 0
  {
    if |days| > 0 {
      DailySalesZero(days[1..]);
      assert DailySales([], days)[1..] == DailySales([], days[1..]);
    }
  }

  /** The fold's invariant pins the stats down: at most one sequence of
      entries meets it for given lines, so `StatsFor` describes `ItemStats`
      completely. */
  lemma StatsForUnique(lines: seq<OrderItem>, a: seq<ItemStat>, b: seq<ItemStat>)
    requires StatsFor(lines, a) && StatsFor(lines, b)
    ensures a == b
  {
    var fa := FirstIndices(lines, a);
    var fb := FirstIndices(lines, b);
    FirstIndicesIn(lines, a, b);
    FirstIndicesIn(lines, b, a);
    IncreasingSameElements(fa, fb);
    forall i | 0 <= i < |a| ensures a[i] == b[i] {
      assert fa[i] == fb[i];
      SameFirstLineSameEntry(lines, a[i], b[i]);
    }
  }

  /** Each entry's first-line index, entry by entry. */
  function FirstIndices(lines: seq<OrderItem>, stats: seq<ItemStat>): (r: seq<int>)
    ensures |r| == |stats|
    ensures forall i :: 0 <= i < |r| ==> r[i] == FirstLineIndex(lines, stats[i].item_id)
  {
    seq(|stats|, (i: int) requires 0 <= i < |stats| => FirstLineIndex(lines, stats[i].item_id))
  }

  /** Under the invariant, the first-line indices of `a` increase and each
      is also one of `b`'s. */
  lemma FirstIndicesIn(lines: seq<OrderItem>, a: seq<ItemStat>, b: seq<ItemStat>)
    requires StatsFor(lines, a) && StatsFor(lines, b)
    ensures forall i, j :: 0 <= i < j < |a| ==> FirstIndices(lines, a)[i] < FirstIndices(lines, a)[j]
    ensures forall v :: v in FirstIndices(lines, a) ==> v in FirstIndices(lines, b)
  {
    var fa, fb := FirstIndices(lines, a), FirstIndices(lines, b);
    forall v | v in fa ensures v in fb {
      var i :| 0 <= i < |a| && fa[i] == v;
      FirstIndexShared(lines, a[i], b);
    }
  }

  /** An entry's first line has an entry in any stats covering the lines,
      with the same first-line index. */
  lemma FirstIndexShared(lines: seq<OrderItem>, st: ItemStat, b: seq<ItemStat>)
    requires FirstLineFor(lines, st) && CoversLines(lines, b)
    ensures FirstLineIndex(lines, st.item_id) in FirstIndices(lines, b)
  {
    EntryHasLine(lines, st);
    var k := FirstLineIndex(lines, st.item_id);
    assert lines[k].item_id == st.item_id;
    var m :| 0 <= m < |b| && b[m].item_id == lines[k].item_id;
    assert FirstIndices(lines, b)[m] == k;
  }

  /** Two entries meeting the invariant with the same first-line index are
      the same entry. */
  lemma SameFirstLineSameEntry(lines: seq<OrderItem>, x: ItemStat, y: ItemStat)
    requires FirstLineFor(lines, x) && FirstLineFor(lines, y)
    requires x.quantity == QuantityOf(lines, x.item_id) && x.revenue == RevenueOf(lines, x.item_id)
    requires y.quantity == QuantityOf(lines, y.item_id) && y.revenue == RevenueOf(lines, y.item_id)
    requires FirstLineIndex(lines, x.item_id) == FirstLineIndex(lines, y.item_id)
    ensures x == y
  {
    EntryHasLine(lines, x);
    var k := FirstLineIndex(lines, x.item_id);
    assert lines[k].item_id == x.item_id && lines[k].item_id == y.item_id;
    FirstLineItem(lines, x);
    FirstLineItem(lines, y);
  }

  /** The first line for an entry's id carries the entry's item. */
  lemma FirstLineItem(lines: seq<OrderItem>, st: ItemStat)
    requires FirstLineFor(lines, st)
    ensures 0 <= FirstLineIndex(lines, st.item_id) < |lines|
    ensures lines[FirstLineIndex(lines, st.item_id)].item == st.item
  {
    var j :| 0 <= j < |lines| && lines[j].item_id == st.item_id && lines[j].item == st.item
      && forall j' :: 0 <= j' < j ==> lines[j'].item_id != st.item_id;
    assert LineIdIs(st.item_id)(lines[j]);
    var k := FirstLineIndex(lines, st.item_id);
    assert k == j;
  }

  /** Whatever meets the invariant for some lines is the fold over them. */
  lemma ItemStatsIsTheOnly(lines: seq<OrderItem>, stats: seq<ItemStat>)
    requires StatsFor(lines, stats)
    ensures stats == ItemStats(lines)
  {
    StatsForUnique(lines, stats, ItemStats(lines));
  }

  // ---------------------------------------------------------------------------
  // The report

  /** The report the route returns for the query's rows. */
  function SalesReportOf(rows: seq<Order>, dateFrom: Option<Timestamp>, dateTo: Option<Timestamp>,
                         daysAgo: nat -> string): (r: SalesReport)
    ensures r.total_orders == Count(rows, InRange(dateFrom, dateTo))
    ensures HistogramSum(r.orders_by_status, AllOrderStatuses) == r.total_orders
    ensures |r.popular_items| <= 10
    ensures forall i, j :: 0 <= i < j < |r.popular_items| ==> r.popular_items[i].quantity >= r.popular_items[j].quantity
    ensures forall stats :: StatsFor(Lines(ReportOrders(rows, dateFrom, dateTo)), stats) ==>
      r.popular_items == PopularItems(stats)
    ensures |r.daily_sales| == 7 && r.daily_sales[6].date == daysAgo(0)
    ensures r.total_revenue == SumTotals(Filter(rows, InRange(dateFrom, dateTo)))
    ensures forall i :: 0 <= i < 7 ==>
      && r.daily_sales[i].date == daysAgo(6 - i)
      && r.daily_sales[i].orders == Count(Filter(rows, InRange(dateFrom, dateTo)), StartsOn(daysAgo(6 - i)))
  {
    var orders := ReportOrders(rows, dateFrom, dateTo);
    var matching := Filter(rows, InRange(dateFrom, dateTo));
    HistogramTotal(orders);
    assert |orders| == |multiset(orders)| == |multiset(matching)| == |matching|;
    SumTotalsPermutation(orders, matching);
    forall stats | StatsFor(Lines(orders), stats) ensures stats == ItemStats(Lines(orders)) {
      ItemStatsIsTheOnly(Lines(orders), stats);
    }
    var days := Last7Days(daysAgo);
    forall i | 0 <= i < 7 ensures Count(orders, StartsOn(days[i])) == Count(matching, StartsOn(days[i])) {
      CountPermutation(orders, matching, StartsOn(days[i]));
    }
    SalesReport(
      |orders|,
      SumTotals(orders),
      StatusHistogram(orders),
      PopularItems(ItemStats(Lines(orders))),
      DailySales(orders, days))
  }
}
