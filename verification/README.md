# InfinityResto order core, in Dafny

A model of the order path of InfinityResto, a restaurant ordering system:

- **Customers** build a cart at a table and place an order.
- **The cashier** finds the order by its six-character code, takes payment and confirms it.
- **The kitchen display (KDS)** lists paid orders, filters and groups them by status, and moves each one on, from confirmed through making and ready to delivered.
- **The admin** filters and edits the menu and reads sales reports.

The model keeps the system's own structure. There is one module per source file, and it works over immutable records:

- `Types` holds the enums and records of `src/types/index.ts`. An `UpdateOrder` patch can carry only `status`, `payment_status` and `payment_method`. A `CartItem` is a menu item with a quantity and optional notes.
- `MockDatabase` is the in-memory store (`MockDb`) that `src/lib/mock-database.ts` keeps in module-level arrays. Every operation returns the new store with its result.
- `OrdersRoute` covers `GET`/`POST /api/orders` and `Lifecycle` covers `GET`/`PATCH /api/orders/[code]`. Each has both its mock branch and its Supabase branch; Supabase tables are sequences of rows.
- `Reports` is the sales aggregation of `/api/admin/reports`.
- `Utils` holds the order-code generator, the table-code pattern, the badge colours and the cart total.
- The components each get a module, over plain data:
  - the kitchen components: `OrderCard`, `StatusFilter`, `KitchenDisplay`;
  - the customer components: `CustomerCart` (the cart handlers of `CustomerInterface.tsx`), `CartView`, `MenuDisplay`, `OrderTracking`;
  - the cashier components: `OrderSearch`, `PaymentForm`;
  - the admin components: `MenuManagement`, `AdminLogin`.
- Shared modules: `Seqs` (`filter`, `findIndex`, `map`), `Sorting` (a stable descending insertion sort, which is what `Array.prototype.sort` promises), `Text` (ASCII case mapping, the ECMAScript whitespace set for `trim`, decimal numerals) and `Wrappers` (`Option`, `Result`).

The route handler of `/api/orders/[code]` lives in `src/app/api/orders/[code]/route.ts`. Its four `Lifecycle` members model these lines of that file:

- `Lifecycle.GetOrderRoute`: lines 32-48, the mock `GET`, which answers 404 "Order not found" for an unknown code.
- `Lifecycle.PatchOrderSupabase`: lines 75-108, the Supabase `PATCH` with its `.single()` and its KDS insert. PostgREST rolls back a single-object update that touches other than one row.
- `Lifecycle.StatusEvent`: lines 99-108, the KDS row "Status updated to <status>".
- `Lifecycle.PatchOrderMock`: lines 109-137, the mock `PATCH`, which reports a thrown `updateOrder` as 500 "Failed to update order".

In the table below those four rows cite the client code that sends each request and reads its answer.

Inputs replace the non-deterministic parts of the code:

- The current time is a `Timestamp` (its ISO text plus epoch milliseconds).
- `Math.random()` draws are indices in `[0, 36)`.
- The mock order code is a parameter.
- The seven report day-strings come from a `daysAgo` function.
- Supabase-generated ids are parameters.

Where the code and the system's description differ, the model follows the code:

- There is no transition validation in `updateOrder` or the PATCH route. Any status can be written over any other, which `Lifecycle.PaymentConfirmsAnyOrder` shows.
- The only forward discipline is the kitchen's `getNextStatus`.
- There is no compare-and-set and no retry when an order code collides.
- The mock store writes no KDS event.
- The reports route emits the field `quantity` for popular items, not the `quantity_sold` that the `SalesReport` type declares.
- The mock `getOrders` returns orders in insertion order, not newest first.

Other modelling choices:

- The PATCH body is taken as already typed, so a status string outside the enum is not modelled.
- An unknown code in PATCH is thrown by the route and answered with a 500, not a 404.
- Amounts in the payment form are integers. An amount that does not parse is `None`.
- String lengths count code points. Case conversion covers ASCII letters only.

## Model

| member | source | states |
|---|---|---|
| Types.OrderStatusValues | src/types/index.ts:85-92 | there are exactly six order statuses, their wire names are pairwise different, and parsing a status's name gives the status back |
| Types.PaymentStatusValues | src/types/index.ts:94-99 | there are exactly four payment statuses with distinct names (the unpaid one is written `pending`), and each name parses back to its status |
| Types.PaymentMethodValues | src/types/index.ts:101-105 | there are exactly three payment methods (cash, debit, qris) with distinct names |
| Types.ParseOrderStatus | src/types/index.ts:85-92 | a string parses to a status exactly when it is that status's name; otherwise no status has that name |
| Types.ParsePaymentStatus | src/types/index.ts:94-99 | a string parses to a payment status exactly when it is that status's name; otherwise no payment status has that name |
| Utils.CodeAlphabetIsUpperAlnum | src/lib/utils.ts:19 | the code alphabet has 36 characters, all upper-case letters or digits |
| Utils.GenerateOrderCode | src/lib/utils.ts:18-25 | six random indices in [0, 36) give a code of exactly six characters, character i being the alphabet entry at draw i, which passes the order-code format check |
| Utils.DrawsFor | src/lib/utils.ts:18-25 | every well-formed code has a draw sequence: six indices, each in [0, 36) |
| Utils.GeneratedCodesAreExactlyFormatted | src/lib/utils.ts:18-25 | the generator reaches every six-character A-Z0-9 code, so its outputs are exactly the well-formed codes |
| Utils.MatchesExactly | src/lib/utils.ts:36 | an anchored character-class pattern matches a string iff they have the same length and every character is in its class |
| Utils.ValidateTableCode | src/lib/utils.ts:35-37 | a table code is valid iff it has length 3, starts with `T` and ends in two digits |
| Utils.IsOrderCodeFormat | src/components/cashier/OrderSearch.tsx:29 | a string has the order-code format iff it has exactly six characters, each an upper-case letter or digit |
| Utils.OrderStatusColor | src/lib/utils.ts:39-56 | the gray badge is given exactly to `delivered` and to strings that are not a status |
| Utils.OrderStatusColorsDistinct | src/lib/utils.ts:39-56 | any two different statuses get different badge classes; delivered's gray is otherwise only the default for unknown strings |
| Utils.PaymentStatusColor | src/lib/utils.ts:58-71 | the gray badge is given exactly to strings that are not a payment status |
| Utils.PaymentStatusColorsDistinct | src/lib/utils.ts:58-71 | two different payment statuses get different badge classes |
| Utils.CalculateCartTotalEmpty | src/lib/utils.ts:73-75 | the total of an empty list is 0 |
| Utils.CalculateCartTotalAppend | src/lib/utils.ts:73-75 | the total is additive over concatenation of item lists |
| MockDatabase.FindTableById | src/lib/mock-database.ts:143 | a table is found iff an id is given and some mock table has it; the table found has that id |
| MockDatabase.FindCategory | src/lib/mock-database.ts:107 | a found category is a mock category with the id; none is found only when no mock category has it |
| MockDatabase.GetTableByCode | src/lib/mock-database.ts:292-294 | exactly the codes T01 to T05 resolve, each to an active mock table carrying that code |
| MockDatabase.GetMenuItems | src/lib/mock-database.ts:93-111 | the result is the stored items passing the given category and stock filters, one entry per passing item in store order, each joined with the category its `category_id` names |
| MockDatabase.UpdateMenuItem | src/lib/mock-database.ts:113-126 | an unknown id fails with "Item not found" and changes nothing; otherwise the first item with the id is merged with the patch in place, no other entry changes, and the item is returned with its category |
| MockDatabase.InitialDbInv | src/lib/mock-database.ts:77-78 | the empty initial store satisfies the store invariant: order i has id i+1, and every order item belongs to a stored order |
| MockDatabase.StoreInvIdsDistinct | src/lib/mock-database.ts:130 | under the invariant, no two stored orders share an id: orders are never removed and each new id is the count plus one |
| MockDatabase.ItemsOf | src/lib/mock-database.ts:167 | the items joined to an order are exactly the stored items whose `order_id` is its id |
| MockDatabase.MockOrderItems | src/lib/mock-database.ts:149-162 | one order item per cart line, with id `<orderId>-<index>`, the order's id, the line's item id, item, quantity and notes, and the item's price as the snapshot price |
| MockDatabase.CreateOrder | src/lib/mock-database.ts:129-171 | appends exactly one order (id = count + 1, the given code, pending/pending, the supplied total, the customer's notes, table id defaulting to "1") and one item per cart line; the returned order carries exactly those items; the store invariant is kept |
| MockDatabase.NewOrderOwnsOnlyNewItems | src/lib/mock-database.ts:165-168 | the items joined to a freshly created order are exactly the ones added for it, because no earlier item can carry the new id |
| MockDatabase.AppendOrderKeepsInv | src/lib/mock-database.ts:146-161 | appending an order with the next id, plus items that belong to it, keeps the store invariant |
| MockDatabase.GetOrders | src/lib/mock-database.ts:173-192 | the result is the stored orders matching the status and payment filters, one entry per match in insertion order, each with its items and table, and nothing else |
| MockDatabase.GetOrderByCode | src/lib/mock-database.ts:194-207 | an unknown code fails with "Order not found" (code PGRST116); otherwise it returns the first order with the code, carrying exactly its items |
| MockDatabase.UpdateOrder | src/lib/mock-database.ts:209-228 | an unknown code fails and leaves the store unchanged; otherwise only the first order with the code changes: its patched fields take the patch's values, `updated_at` becomes now and everything else is kept; the store invariant is kept |
| MockDatabase.UpdateOrderKeepsPosition | src/lib/mock-database.ts:210-219 | an update keeps the order at the index where the next lookup finds it, with the patched status |
| MockDatabase.GetSalesSummary | src/lib/mock-database.ts:250-259 | `total_orders` counts the paid orders, `total_revenue` sums their totals, and the status histogram, which has a key exactly for the statuses that occur among paid orders, sums to `total_orders` |
| OrdersRoute.RequestTotalIsCartTotal | src/app/api/orders/route.ts:197-199 | the route's total of Σ price × quantity equals `calculateCartTotal` over the same lines |
| OrdersRoute.PostOrderMock | src/app/api/orders/route.ts:80-211 | a missing table code, or missing or empty items, gives 400 before anything else; an unknown table gives 400 and creates nothing; otherwise exactly one pending/pending order is stored with total Σ price × quantity, the caller's notes and one item per line, and the store invariant is kept |
| OrdersRoute.PostOrderMockExample | src/app/api/orders/route.ts:196-208 | ordering 1 × 10000 and 2 × 5000 at T01 on an empty store yields order "1" on table "1" with total 20000 and two stored items |
| OrdersRoute.SingleActiveTable | src/app/api/orders/route.ts:94-109 | `.single()` finds a table iff exactly one active table has the code, and then returns that table |
| OrdersRoute.PostOrderSupabase | src/app/api/orders/route.ts:92-161 | the Supabase branch rejects missing fields, and a table code without exactly one active match, with 400; otherwise it plans a pending/pending order with a well-formed generated code and the summed total, one item row per line, and one `pending` KDS event "Order placed by customer" |
| OrdersRoute.QueryGet | src/app/api/orders/route.ts:9-11 | `searchParams.get` returns the value of the first pair with the key, and nothing iff no pair has the key |
| OrdersRoute.QueryGetAll | src/app/api/orders/route.ts:9 | the values of every pair with the key, and only those, in query order and with repeats (`URLSearchParams.getAll`) |
| OrdersRoute.GetOrdersMockIgnoresTableId | src/app/api/orders/route.ts:44-49 | the mock listing is unaffected by any `table_id` parameter |
| OrdersRoute.WantedStatuses | src/app/api/orders/route.ts:9 | the non-empty `status` values of the query, all of them |
| OrdersRoute.GetOrdersMockAll | src/app/api/orders/route.ts:44-49 | the corrected mock listing: exactly the stored orders whose status is among all requested statuses (any when none) and that pass the payment filter, one entry per match in store order |
| OrdersRoute.GetOrdersMockAllSingleStatus | src/app/api/orders/route.ts:44-49 | with a single status value the corrected listing and the route as written are the same sequence |
| OrdersRoute.GetOrdersSupabase | src/app/api/orders/route.ts:15-42 | the Supabase branch keeps exactly the rows equal to the first `status`, `payment_status` and `table_id` values given, each matching row once, newest `created_at` first |
| Lifecycle.GetOrderRoute | src/components/cashier/CashierSystem.tsx:133-145 | an unknown code answers 404 "Order not found"; otherwise the order with the code is returned |
| Lifecycle.PatchOrderMock | src/components/cashier/CashierSystem.tsx:172-190 | an unknown code answers 500 and leaves the store unchanged; otherwise only the first order with the code changes, taking the body's fields and `updated_at` = now, and it is returned with its items and table; the store invariant is kept |
| Lifecycle.StatusEvent | src/components/kds/KitchenDisplay.tsx:97-104 | a KDS event is built iff the body carried a status, for the order's id, with that status and the note "Status updated to <status>" |
| Lifecycle.PatchOrderSupabase | src/components/kds/KitchenDisplay.tsx:97-110 | the call succeeds iff exactly one row has the code, and then that row alone is patched and the event is written, once, when the body has a status; with no row or several the request is rolled back, so the rows are unchanged and no event is written |
| Lifecycle.PaymentConfirmsAnyOrder | src/components/cashier/CashierSystem.tsx:177-181 | the cashier's combined patch makes any existing order confirmed and paid with the chosen method, whatever its previous status |
| Lifecycle.KitchenStepAdvances | src/components/kds/OrderCard.tsx:143-145 | one press of the advance button, sent through PATCH, keeps a final status or moves the order exactly one step on, never back along the timeline |
| Lifecycle.KitchenRunReachesDelivered | src/components/kds/OrderCard.tsx:28-39 | a driver that only ever requests `getNextStatus` takes a confirmed order, after n presses, to the n-th successor, which is delivered from three presses on |
| Lifecycle.AdvanceMonotone | src/components/kds/OrderCard.tsx:28-39 | along that run the timeline index never decreases |
| Lifecycle.AdvanceNeverCancels | src/components/kds/OrderCard.tsx:28-39 | following next statuses never reaches cancelled from a status other than cancelled |
| OrderCard.NextStatus | src/components/kds/OrderCard.tsx:28-39 | a next status exists exactly for confirmed, making and ready, and it is never pending, confirmed or cancelled |
| OrderCard.AdvanceFromStop | src/components/kds/OrderCard.tsx:36-37 | a status without a next status stays put however often it is advanced |
| OrderCard.ConfirmedReachesDelivered | src/components/kds/OrderCard.tsx:28-35 | from confirmed, one step gives making, two give ready, and three or more give delivered |
| OrderCard.ElapsedMinutes | src/components/kds/OrderCard.tsx:18 | the whole minutes elapsed, floored: m minutes cover the difference from below and m + 1 from above, also for negative differences |
| OrderCard.ElapsedLabel | src/components/kds/OrderCard.tsx:20-25 | "Just now" exactly under 1 minute, "Nm ago" under 60, and otherwise "Hh Mm ago" with H = m div 60 and M = m mod 60 |
| OrderCard.ElapsedLabelInjective | src/components/kds/OrderCard.tsx:20-25 | two different positive minute counts never print the same label |
| OrderCard.UrgencyRing | src/components/kds/OrderCard.tsx:71-76 | very urgent (over 45 minutes) implies urgent (over 30) and gives the red ring; there is no ring exactly when the order is not urgent |
| OrderCard.AdvanceRequest | src/components/kds/OrderCard.tsx:143-145 | the advance button exists iff there is a next status, and it sends the order's code with that status |
| OrderTracking.CurrentStatusIndex | src/components/customer/OrderTracking.tsx:112-120 | the step index is -1 exactly for cancelled; otherwise the step at that index is the order's status |
| OrderTracking.StepIndices | src/components/customer/OrderTracking.tsx:112-120 | pending to delivered sit at steps 0 to 4, and cancelled at -1 |
| OrderTracking.Timeline | src/components/customer/OrderTracking.tsx:220-222 | step i is completed iff i is at most the current index, and current iff it equals it |
| OrderTracking.TimelineShape | src/components/customer/OrderTracking.tsx:220-222 | completed steps form a prefix that ends at the current step; at most one step is current; a cancelled order has no completed step, and only it |
| OrderTracking.Poll | src/components/customer/OrderTracking.tsx:49-55 | the polled status replaces the shown one; a notification with that status's message is raised iff the flag the poll consults is on and the status changed |
| OrderTracking.PollAnnouncesOnce | src/components/customer/OrderTracking.tsx:49-55 | polling the same status again raises no second notification |
| OrderTracking.Mount | src/components/customer/OrderTracking.tsx:18-20 | the view starts on the given status with notifications on, and the polling effect starts with that value |
| OrderTracking.Toggle | src/components/customer/OrderTracking.tsx:140-142 | the toggle flips the button's flag and leaves the running effect's captured flag and the shown status alone |
| OrderTracking.Show | src/components/customer/OrderTracking.tsx:40-76 | a new status re-runs the effect, which captures the current flag; the same status leaves the effect as it was |
| OrderTracking.PollAsWritten | src/components/customer/OrderTracking.tsx:25-55 | a poll as written notifies iff the effect's captured flag is on and the status changed, and shows the polled status |
| OrderTracking.PollTracker | src/components/customer/OrderTracking.tsx:25-55 | the corrected poll notifies iff the button's current flag is on and the status changed |
| OrderTracking.Refresh | src/components/customer/OrderTracking.tsx:123-131 | the manual refresh shows the fetched status without notifying, and re-runs the effect when it changed |
| OrderTracking.AsWrittenAgreesUntilToggled | src/components/customer/OrderTracking.tsx:25-76 | while the toggle is unused since the effect last started, the component notifies exactly as intended, and stays so |
| OrderTracking.StaleFlagNotifiesWhenOff | src/components/customer/OrderTracking.tsx:26 | mounted on pending and toggled off, the poll that sees confirmed still notifies; the corrected poll does not |
| OrderTracking.StaleFlagSilentWhenOn | src/components/customer/OrderTracking.tsx:26 | after a change seen while off, toggling on leaves the next change silent; the corrected poll notifies |
| KitchenDisplay.KdsQuery | src/components/kds/KitchenDisplay.tsx:39-40 | the board's query asks for paid orders and carries one `status` value per filter entry, so that `get('status')` sees only the first |
| KitchenDisplay.AsWrittenLoadsOnlyFirstStatus | src/components/kds/KitchenDisplay.tsx:39-40 | as written, every order the board loads is paid and has the first filter status |
| KitchenDisplay.AsWrittenLoadMissesMaking | src/components/kds/KitchenDisplay.tsx:15-19 | with the default filter, a store holding one paid `making` order loads nothing |
| KitchenDisplay.LoadOrdersExact | src/components/kds/KitchenDisplay.tsx:34-45 | corrected: the board loads exactly the paid orders whose status is in the filter |
| KitchenDisplay.HandleSort | src/components/kds/KitchenDisplay.tsx:127-134 | sorting by the current key flips the direction; sorting by another key selects it, ascending |
| KitchenDisplay.HandleSortTwice | src/components/kds/KitchenDisplay.tsx:127-134 | pressing the current key twice restores the state; pressing a new key twice leaves it descending |
| KitchenDisplay.SortByTime | src/components/kds/KitchenDisplay.tsx:137-141 | the time sort permutes the orders, ascending mode giving non-decreasing and descending mode non-increasing `created_at` |
| KitchenDisplay.SortByTimeStable | src/components/kds/KitchenDisplay.tsx:137-141 | orders created at the same instant keep their relative order, in either direction |
| KitchenDisplay.FilteredOrders | src/components/kds/KitchenDisplay.tsx:151-153 | exactly the sorted orders whose status is in the filter, in their sorted order and with repeats |
| KitchenDisplay.OrdersByStatus | src/components/kds/KitchenDisplay.tsx:156-159 | a group for each filter status, and only those, holding exactly the filtered orders with that status in their display order |
| KitchenDisplay.GroupSizesAreCounts | src/components/kds/KitchenDisplay.tsx:156-159 | group sizes are the per-status counts the reports histogram also uses |
| KitchenDisplay.GroupsPartition | src/components/kds/KitchenDisplay.tsx:151-159 | with a duplicate-free filter, every shown order lies in its own status's group and no other, and the group sizes add up to the number shown |
| KitchenDisplay.UrgentCountMatchesCards | src/components/kds/KitchenDisplay.tsx:49-53 | the urgent count is the number of orders older than 30 minutes, the same threshold as each card's urgent flag |
| KitchenDisplay.UrgentCountGrows | src/components/kds/KitchenDisplay.tsx:49-53 | for a fixed list the urgent count never decreases as time passes and never exceeds the list length |
| KitchenDisplay.ApplyStatusUpdate | src/components/kds/KitchenDisplay.tsx:110-120 | the order with the code is replaced in place when its new status is in the filter, and otherwise dropped; the other orders stay, in order |
| KitchenDisplay.DropAfterReplace | src/components/kds/KitchenDisplay.tsx:111-120 | replacing and then dropping the code is the same as dropping it from the old list |
| StatusFilter.ToggleStatus | src/components/kds/StatusFilter.tsx:27-33 | toggling an absent status appends it at the end; toggling a present one removes it; every other status keeps its membership |
| StatusFilter.ToggleRemovesAt | src/components/kds/StatusFilter.tsx:28-29 | in a duplicate-free list, toggling the status at index i cuts exactly that position out, keeping the rest in order |
| StatusFilter.ToggleTwiceRestores | src/components/kds/StatusFilter.tsx:27-33 | toggling an absent status twice gives the original list back |
| StatusFilter.ToggleKeepsDistinct | src/components/kds/StatusFilter.tsx:27-33 | toggling keeps the selection duplicate-free |
| StatusFilter.PresetsAreExact | src/components/kds/StatusFilter.tsx:20-25 | Select All gives exactly [confirmed, making, ready, delivered], which are all the statuses except pending and cancelled; Clear All gives the empty list |
| CustomerCart.MergeNotes | src/components/customer/CustomerInterface.tsx:114 | on a merge, non-empty new notes replace the old ones; empty or absent new notes keep them |
| CustomerCart.AddToCart | src/components/customer/CustomerInterface.tsx:104-124 | a new item is appended as {item, quantity, notes}; an item already present has its quantity raised by q and its notes merged, at its position, with every other entry unchanged |
| CustomerCart.RemoveFromCart | src/components/customer/CustomerInterface.tsx:141-144 | exactly the entries with a different item id remain |
| CustomerCart.RemoveCutsOut | src/components/customer/CustomerInterface.tsx:142 | with unique ids, removal cuts out the one matching entry and keeps the rest in order, or changes nothing when no entry matches |
| CustomerCart.UpdateQuantity | src/components/customer/CustomerInterface.tsx:126-139 | a quantity of 0 or less removes the item; a positive one changes only the matching entry's quantity, keeping length and order |
| CustomerCart.UpdateNotes | src/components/customer/CustomerInterface.tsx:146-154 | only the matching entry's notes change, to the given text |
| CustomerCart.AddKeepsIdsUnique | src/components/customer/CustomerInterface.tsx:104-124 | adding keeps item ids unique in the cart |
| CustomerCart.RemoveKeepsIdsUnique | src/components/customer/CustomerInterface.tsx:141-144 | removal keeps item ids unique |
| CustomerCart.UpdateQuantityKeepsIdsUnique | src/components/customer/CustomerInterface.tsx:126-139 | a quantity update keeps item ids unique |
| CustomerCart.UpdateNotesKeepsIdsUnique | src/components/customer/CustomerInterface.tsx:146-154 | a notes update keeps item ids unique |
| CustomerCart.AddRaisesItemCount | src/components/customer/CustomerInterface.tsx:248 | adding q of an item raises the badge's Σ quantity by exactly q, whether the item was merged or appended |
| CustomerCart.MergeKeepsLength | src/components/customer/CustomerInterface.tsx:106-116 | adding an item that is already present leaves the cart length unchanged |
| CartView.CartTotalIsCharged | src/components/customer/Cart.tsx:32-35 | the total shown in the cart equals the total the orders route charges for the same lines |
| CartView.ValidationErrors | src/components/customer/Cart.tsx:38-49 | one error per line whose notes are non-empty but shorter than 3 characters once trimmed, naming that line's item, and no other errors |
| CartView.ValidationErrorsConcat | src/components/customer/Cart.tsx:41-46 | errors come in cart order: the errors of a joined cart are the errors of its parts, joined |
| CartView.NoErrorsIff | src/components/customer/Cart.tsx:41-46 | there is no error iff every line's notes are absent, empty, or at least 3 characters after trimming |
| CartView.Checkout | src/components/customer/Cart.tsx:51-65 | checkout proceeds iff there is no validation error, passing the customer notes, or nothing when they are empty |
| CartView.ShortNotesBlockCheckout | src/components/customer/Cart.tsx:55-57 | a single line with too-short notes blocks checkout |
| CartView.HandleQuantityChange | src/components/customer/Cart.tsx:68-80 | a requested quantity below 1 removes the item; any other is forwarded clamped to [1, 50] |
| CartView.StepperKeepsQuantityInRange | src/components/customer/Cart.tsx:68-80 | after the stepper's action, ids stay unique, a request below 1 leaves no entry with the id, the entry's quantity lies in [1, 50], and other entries are kept |
| MenuDisplay.ItemsByCategory | src/components/customer/MenuDisplay.tsx:34-41 | there is a group exactly for each category that occurs, holding that category's items in input order |
| MenuDisplay.GroupKeysAreCategories | src/components/customer/MenuDisplay.tsx:34-41 | a category has a group iff some item carries it |
| MenuDisplay.FilteredItems | src/components/customer/MenuDisplay.tsx:44-59 | every shown item is in stock; with a specific category every one has it; with a non-empty query every one's lower-cased name or description contains the lower-cased query |
| MenuDisplay.FilteredItemsIsOneFilter | src/components/customer/MenuDisplay.tsx:44-59 | the chain of filters keeps exactly the items passing stock, category and query together, in input order |
| MenuDisplay.BaseIsOneFilter | src/components/customer/MenuDisplay.tsx:45-48 | with an empty query, the result is the in-stock items of the chosen category, in order |
| MenuDisplay.DecrementQuantity | src/components/customer/MenuDisplay.tsx:260 | the modal quantity steps down by one but never below 1 |
| MenuManagement.FilteredItems | src/components/admin/MenuManagement.tsx:147-153 | an item is kept iff its name or description contains the term case-insensitively and the category is "all" or the item's; the kept items stay in list order |
| MenuManagement.EmptyTermKeepsCategory | src/components/admin/MenuManagement.tsx:148 | an empty term keeps every item of the category, in stock or not |
| MenuManagement.StockTogglePayload | src/components/admin/MenuManagement.tsx:79 | the toggle sends only `in_stock`, the negation of the current value |
| MenuManagement.ToggleFlipsStock | src/components/admin/MenuManagement.tsx:72-96 | toggling an item with a unique id flips exactly its stock flag, and toggling again restores the store |
| MenuManagement.ReplaceById | src/components/admin/MenuManagement.tsx:87-89 | the entry with the id is replaced by the updated item, with length and order unchanged |
| MenuManagement.ReplaceKeepsShape | src/components/admin/MenuManagement.tsx:130-132 | replacing keeps every id in place, leaves other entries untouched, and is idempotent |
| OrderSearch.Normalize | src/components/cashier/OrderSearch.tsx:45 | the normalised input holds only A-Z0-9, is no longer than the input, and is the upper-cased input's letters and digits, in order and with repeats |
| OrderSearch.NormalizeConcat | src/components/cashier/OrderSearch.tsx:45 | normalising a concatenation concatenates the normalised parts |
| OrderSearch.NormalizeChar | src/components/cashier/OrderSearch.tsx:45 | one character becomes its upper-case form when that is A-Z0-9, and disappears otherwise |
| OrderSearch.NormalizeIdempotent | src/components/cashier/OrderSearch.tsx:45 | normalising twice is normalising once |
| OrderSearch.HandleSearch | src/components/cashier/OrderSearch.tsx:16-42 | blank input is rejected with the "enter a code" error before any lookup; a non-blank trimmed code of the wrong format gets the format error; the code reaches the lookup iff its trimmed form is exactly six A-Z0-9 characters, and then it is passed on trimmed |
| OrderSearch.SearchAfterTyping | src/components/cashier/OrderSearch.tsx:44-49 | for whatever the box holds after typing: six characters are passed on unchanged, none gives the blank error, and any other length gives the format error |
| PaymentForm.SubmitPayment | src/components/cashier/PaymentForm.tsx:19-35 | submission goes through iff the amount parses and is at least the total, passing the method and the amount; otherwise it fails with the "at least the order total" message |
| PaymentForm.ChangeShownIff | src/components/cashier/PaymentForm.tsx:41-43 | change is shown iff the displayed amount exceeds the total, and then it is amount − total, which is positive |
| PaymentForm.EnabledCashSubmits | src/components/cashier/PaymentForm.tsx:166 | an enabled cash button with a parsed amount always submits; every accepted submission has non-negative change and an enabled button |
| PaymentForm.RoundUp | src/components/cashier/PaymentForm.tsx:53-55 | `Math.ceil(total / step) * step` is the least multiple of the step that is at least the total |
| PaymentForm.FirstOccurrences | src/components/cashier/PaymentForm.tsx:56 | the first-occurrence filter is duplicate-free, has the same members, and keeps the first element |
| PaymentForm.FirstOccurrencesInOrder | src/components/cashier/PaymentForm.tsx:56 | `s[i]` is kept iff it does not occur in `s[..i]` (`indexOf(amount) === index`), and the kept values stay in their order |
| PaymentForm.QuickAmountsFacts | src/components/cashier/PaymentForm.tsx:51-56 | the quick amounts number 1 to 4, start with the total, are duplicate-free and at least the total, and each amount other than the total is a multiple of 50000 |
| AdminLogin.ValidateForm | src/components/admin/AdminLogin.tsx:23-45 | a blank or whitespace-only username gets the "required" error; an empty password gets "required" and one of 1 or 2 characters gets "at least 3"; the form is valid iff neither field has an error |
| AdminLogin.ValidIff | src/components/admin/AdminLogin.tsx:23-45 | the form is valid iff the trimmed username is non-empty and the password has at least 3 characters |
| AdminLogin.BothErrorsReported | src/components/admin/AdminLogin.tsx:30-43 | the two field errors are computed independently: a blank username and an empty password are both reported |
| Reports.ReportOrders | src/app/api/admin/reports/route.ts:15-35 | the report reads exactly the paid rows, with `date_from` and `date_to` bounding `created_at` inclusively when given, each once, newest `created_at` first |
| Reports.StatusHistogram | src/app/api/admin/reports/route.ts:44-47 | a status is a key iff some order has it, and its value is the number of orders with it |
| Reports.HistogramTotal | src/app/api/admin/reports/route.ts:40-47 | the histogram's counts sum to the number of orders, and statuses with no order are absent |
| Reports.CountsSumToLength | src/app/api/admin/reports/route.ts:44-47 | summed over all six statuses, the per-status counts give the number of orders |
| Reports.ItemStats | src/app/api/admin/reports/route.ts:50-68 | one entry per item id that occurs, and only one, in the order the ids first occur (the `Map`'s insertion order), each carrying the item of that id's first line, the sum of its lines' quantities and the sum of quantity × price |
| Reports.StatsForUnique | src/app/api/admin/reports/route.ts:50-68 | those conditions leave no freedom: two entry lists meeting them for the same lines are equal |
| Reports.ItemStatsIsTheOnly | src/app/api/admin/reports/route.ts:50-68 | any entry list meeting those conditions is the fold's result |
| Reports.SortByQuantity | src/app/api/admin/reports/route.ts:70-71 | the stats are permuted into non-increasing quantity, and entries with equal quantity keep their order (a stable sort) |
| Reports.Take | src/app/api/admin/reports/route.ts:72 | `slice(0, n)`: the first min(n, length) entries |
| Reports.PopularItems | src/app/api/admin/reports/route.ts:70-72 | at most 10 entries (exactly 10 when there are that many items) with non-increasing quantity |
| Reports.PopularItemsAreTop | src/app/api/admin/reports/route.ts:70-72 | the popular list is the first ten of the sorted stats, and no item left out sold more than any item listed |
| Reports.Last7Days | src/app/api/admin/reports/route.ts:75-79 | seven day-strings, oldest first, the last being today |
| Reports.DailySales | src/app/api/admin/reports/route.ts:81-91 | one entry per day, counting and summing only the orders whose `created_at` starts with that day |
| Reports.DailySalesEmpty | src/app/api/admin/reports/route.ts:81-91 | with no orders every daily entry is zero |
| Reports.DailyOrdersAtMostTotal | src/app/api/admin/reports/route.ts:81-91 | with distinct same-length day strings no order is counted on two days, so the daily counts sum to at most the number of orders |
| Reports.SalesReportOf | src/app/api/admin/reports/route.ts:40-99 | the assembled report counts the paid in-range orders and sums their totals, its histogram sums to that count, it has at most 10 popular items in non-increasing quantity, those items are the top ten of the per-item stats of the newest-first report lines, and its seven days run oldest first to today, each counting the in-range orders of that day |
| Sorting.SortDesc | src/app/api/admin/reports/route.ts:71 | the comparator sort `b.key - a.key` yields a permutation in non-increasing key order |
| Sorting.SortStable | src/app/api/admin/reports/route.ts:71 | the sort is stable: the entries with any one key value keep their input order |

## Left out

- Random values: `Math.random` in the mock order code (`mock-database.ts:131`, which can be shorter than six characters, so its length is not claimed) and the random popular items and daily sales of the mock report (`mock-database.ts:262-277`) cannot be modelled; the generator's draws and the mock code are inputs.
- The mock admin login (`mock-database.ts:231-248`) and password checking in the login route: authentication, not order logic.
- The table sort of the kitchen display (`KitchenDisplay.tsx:142-148`): it depends on `localeCompare`, whose collation is locale data.
- Timers and polling (`setInterval` in the kitchen display and the tracking page, `debounce`): scheduling; a poll is one step of the model, with the flag the tracking effect captured as part of the view's state.
- `formatCurrency`, `formatDate` and other `Intl` formatting, `getTableFromUrl`, and all rendering, toasts, modals and browser notifications: presentation.
- Errors raised by the Supabase client on insert or fetch, and the final fetch of the complete order after `POST`: the plumbing of an external service; the Supabase branch is modelled as a plan of the rows it writes.
- The `menu-items`, `tables` and `categories` routes and `CashierSystem.tsx` query building: thin pass-throughs.
- `parseFloat` in the payment form: amounts are integers and an unparsable amount is `None`, so fractional rupiah are not modelled.
- `maxLength={6}` on the order-search input: a browser attribute; the search handler is modelled for any input length.
- The Supabase `updated_at` column on PATCH: the route does not set it, and any database trigger is not part of this model.
- Non-ASCII case mapping in `toUpperCase`/`toLowerCase`, and UTF-16 code units: strings are sequences of code points.
- OrdersRoute.GetOrdersSupabase: does not fix the order of rows with equal `created_at`, which PostgreSQL leaves unspecified; `Reports.ReportOrders` likewise.
- Reports.SalesReportOf: does not restate which statuses are histogram keys or the daily revenue sums; `Reports.HistogramTotal` and `Reports.DailySales` state those for the same rows.

## Findings

| source | as written | input that shows it | evidently intended | confidence | as-written member | corrected member |
|---|---|---|---|---|---|---|
| src/components/kds/KitchenDisplay.tsx:39-40 | the board sends `status=confirmed&status=making&status=ready`, but `GET /api/orders` reads only the first value with `searchParams.get('status')` (src/app/api/orders/route.ts:9), so only confirmed orders are loaded | the default filter [confirmed, making, ready] and a store holding one paid order in status making: the board loads nothing | the board loads every paid order whose status is in the filter | high; not executed | KitchenDisplay.AsWrittenLoadMissesMaking | KitchenDisplay.LoadOrdersExact |
| src/components/customer/OrderTracking.tsx:26 | `showNotification` reads `notificationsEnabled` from the render that set up the polling effect, and the effect's dependencies (line 76) are only the code and the status, so the toggle (line 141) does not reach the running interval until the status next changes | mount on a pending order, turn notifications off, then a poll sees confirmed: the notification is still shown | the toggle takes effect at the next poll | medium; not executed | OrderTracking.PollAsWritten, OrderTracking.StaleFlagNotifiesWhenOff | OrderTracking.PollTracker |
