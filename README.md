# Little Lemon API: cart and order handlers in Dafny

This project models the cart and order part of the Little Lemon restaurant
backend (a Django REST Framework application). The handlers are the three
views `CartView`, `OrderView` and `SingleOrderView` in
`LittleLemonAPI/views.py`. The model proves what each request does to the
stored tables.

- `records.dfy`, module `Records`: the rows of the three tables the handlers
  touch. These are `CartLine`, `Order` and `OrderItem`. The module also holds
  the pure functions the handlers are specified by: a generic `Filter` (the
  ORM's `objects.filter`), `Find` (the lookup behind `get_object_or_404`),
  the order `Total`, the item `Snapshots` of a cart, `ValidPrefix` and the
  PUT update `Assigned`. The lemmas about these functions are there too.
- `views.dfy`, module `Views`: class `Store` holds the tables as sequences.
  Cart lines, orders and order items are `seq` fields. The menu prices are a
  map. The "manager" and "delivery crew" groups are two sets. `nextId` is the
  id counter of the order table. Each handler is a method that takes the
  requester (`Principal`: user id and Django's `is_staff` flag) and returns
  `Ok(...)` or `Err(...)`. `Valid()` is the store invariant:
  - order ids are unique and below `nextId`;
  - every cart line and order item has price = unit price × quantity.

  Every state-changing method keeps `Valid()`.

Modelling choices:

- **Money.** Prices are integer counts of hundredths. `int(n)` on a price
  (views.py:191) truncates toward zero; this is `IntPart`. The order total is
  kept in hundredths as 100 × the sum of the `IntPart`s.
- **Validation.** The data model (`models.py`) is not part of this model. The
  serializers' validation is therefore four predicates fixed when the store
  is created: `lineOk`, `orderOk`, `itemOk` and `statusOk`. The first three
  also receive the table the row would be saved into, so that uniqueness
  rules can be expressed.
- **Defaults.** A new order gets status 0 and no courier. It gets the next id
  of the order table.
- **Time.** `date.today()` is the `today` parameter of `PlaceOrder`.
- **Group lookup.** `is_in_group` (views.py:220-224) returns None when the
  group does not exist. None is falsy, so a missing group behaves exactly
  like an empty set in every handler. The model therefore uses plain sets.
- **POST /orders is not all-or-nothing.** The order is saved first and the
  items one at a time. The first rejected item ends the request. The order
  and the items saved before it stay, and the cart is not cleared.
- **PUT /orders/{id} drops falsy values.** An absent or 0 crew id or status
  is not written. So, for integer request values, PUT can never put an order
  back to status 0, and it can never remove a courier (`AssignedNeverResets`).
- **Totals.** An order's items need not add up to its total, because of the
  truncation: `TruncatedTotal` shows a single line of 1.50 giving a total of
  1.00. `OrderTotalVsItems` shows the gap is below one unit per item.
- **Single-order read.** GET /orders/{id} shows an order only to the user who
  placed it, whatever their groups. GET /orders shows a manager every order.
  The model keeps this asymmetry.
- **Deletion.** DELETE /orders/{id} also removes the order's items. This
  assumes the usual cascading foreign key of the data model.

## Model

| member | source | states |
|---|---|---|
| `Views.Store.ListLines` | LittleLemonAPI/views.py:132-138 | the result holds exactly the cart lines whose user is the requester, in table order |
| `Views.Store.AddLine` | LittleLemonAPI/views.py:140-156 | an unknown menu item is not found; a missing or non-integer quantity fails; otherwise, if the line passes validation, exactly one line is appended (never merged) with the requester, the item's current unit price, the quantity and price = unit price × quantity, and if it does not the answer is Invalid; on any failure the cart table is unchanged |
| `Records.Filter` | LittleLemonAPI/views.py:134 | the rows that pass the condition, each once and in table order; a row is in the result exactly when it is in the table and passes |
| `Records.AddLineFrame` | LittleLemonAPI/views.py:151-153 | after appending a line, its owner's cart is the old cart plus that line at the end, and every other user's cart is unchanged |
| `Views.Store.ClearCart` | LittleLemonAPI/views.py:158-161 | always answers ok; the cart table afterwards is the old one without the requester's lines, other lines in their old order |
| `Records.ClearCartFrame` | LittleLemonAPI/views.py:160 | after clearing user u's cart, u has no lines and every other user's lines are exactly as before |
| `Records.ClearCartIdempotent` | LittleLemonAPI/views.py:160 | clearing twice equals clearing once, and clearing a cart that is already empty changes nothing |
| `Views.Store.ListOrders` | LittleLemonAPI/views.py:167-180 | a manager gets all orders, even if also in the delivery crew group; otherwise a crew member gets exactly the orders assigned to them; otherwise the user gets exactly their own orders; each matching order appears once, in table order |
| `Views.Store.PlaceOrder` | LittleLemonAPI/views.py:182-216 | empty cart: EmptyCart with nothing changed; order rejected: nothing changed; otherwise exactly one order is appended (next id, requester, no courier, status 0, today, truncated total) and one item per cart line is saved up to the first rejected one; if none is rejected the result is the order and only the requester's cart is cleared, else the error leaves the order, the saved items and the cart in place |
| `Records.NewOrder` | LittleLemonAPI/views.py:189-193 | the order saved for a cart has the next id, the requester, today's date, no courier and status 0; its total is a whole number of units and, with non-negative prices, between 0 and the sum of the line prices |
| `Records.Snapshots` | LittleLemonAPI/views.py:200-206 | one item per cart line, in cart order, each bound to the new order and copying the line's menu item, quantity, unit price and price |
| `Records.ValidPrefix` | LittleLemonAPI/views.py:199-211 | the number of items the loop saves before returning early, never more than the number of cart lines |
| `Records.ValidPrefixStops` | LittleLemonAPI/views.py:199-211 | `ValidPrefix` counts the items saved before the first rejected one: every item before the count passes on the table as it then is, and the item at the count, if any, fails |
| `Records.PartialPlacement` | LittleLemonAPI/views.py:197-211 | with a two-line cart whose second item is rejected, exactly one item is saved: placement is not all-or-nothing |
| `Records.IntPart` | LittleLemonAPI/views.py:191 | Python int() of a price: the whole units with the remainder dropped toward zero (below one unit, same sign as the price) |
| `Records.Total` | LittleLemonAPI/views.py:191 | the sum of `int()` of the line prices, kept in hundredths, is always a whole number of units |
| `Records.TotalBounds` | LittleLemonAPI/views.py:189-193 | with non-negative prices the total is between 0 and the sum of the line prices, and less than one unit per line below that sum |
| `Records.TotalExactIffWhole` | LittleLemonAPI/views.py:191 | with non-negative prices the total equals the sum of the line prices if and only if no price has a fractional part |
| `Records.PizzaAndSodaTotal` | LittleLemonAPI/views.py:189-193 | two lines of 2 × 10.00 and 1 × 3.00 give a total of 23.00 |
| `Records.TruncatedTotal` | LittleLemonAPI/views.py:191 | a single line of 1.50 gives a total of 1.00 while its item keeps 1.50 |
| `Records.SnapshotsKeepPrices` | LittleLemonAPI/views.py:199-206 | the items made from a cart add up to exactly the cart's line prices |
| `Records.OrderTotalVsItems` | LittleLemonAPI/views.py:189-206 | an order's total is at most the sum of its items' prices and less than one unit per item below it |
| `Views.Store.GetOrder` | LittleLemonAPI/views.py:232-237 | succeeds if and only if an order with that id was placed by the requester, whatever their groups, and then returns that order; otherwise not found |
| `Records.Find` | LittleLemonAPI/views.py:244 | the position of the first order with the given id, or none exactly when no order has it |
| `Views.Store.PatchStatus` | LittleLemonAPI/views.py:239-254 | a requester in neither group is refused; then an unknown id is not found; then a missing or rejected status fails; all errors change nothing; on success only that order's status changes, in either direction, and the updated order is returned |
| `Views.Store.PutAssign` | LittleLemonAPI/views.py:256-274 | non-staff is refused; then an unknown id is not found; then a truthy crew id not in the delivery crew group (also when the group does not exist) fails; then a truthy status the serializer rejects fails; all errors change nothing; on success only that order changes, to `Assigned` of it |
| `Records.Assigned` | LittleLemonAPI/views.py:260-269 | the partial update keeps the order's id, user, total and date |
| `Records.AssignedNeverResets` | LittleLemonAPI/views.py:262-267 | because falsy values are ignored, PUT never turns a non-zero status into 0 and never removes an assigned courier |
| `Views.Store.DeleteOrder` | LittleLemonAPI/views.py:276-279 | non-staff is refused; an unknown id is not found with nothing changed; otherwise exactly the order with that id is removed, every other order stays in order, and its items are removed with it |
| `Records.DeleteExactlyThat` | LittleLemonAPI/views.py:277-278 | in a table with unique ids, removing the position of an id leaves exactly the orders with other ids |

## Left out

- Menu, category and menu-item views (views.py:15-62): generic create, read, update and delete of the catalogue, with filtering and pagination. The menu is only a price map here.
- Group-management views (views.py:65-126): adding users to and removing them from the groups. The groups are fixed sets, given when the store is created.
- The serializers and the data model: field lists and validation rules. Validation is the four predicates described above; the data model's defaults are assumed (status 0, no courier, cascading delete).
- Permission classes: `IsAuthenticated` holds for every `Principal`; `IsAdminUser` on PUT and DELETE is the `staff` flag, answered with `NotAdmin`.
- HTTP status codes and response bodies. Unhandled exceptions of the source (`MenuItem.DoesNotExist`, a failing `int()` on the quantity) become the errors `NotFound` and `BadQuantity`.
- `Views.Store.PatchStatus`: a `status` that is absent from the request is taken to be rejected by the serializer (the status field is assumed not nullable); whether the real data model accepts null is not modelled.
- Request values that are neither integers nor absent are not modelled. Crew id and status are optional integers, and Python truthiness is `Truthy`. This misses strings: a form-encoded or JSON-string status of "0" is truthy, so PUT writes it and the serializer turns it into 0. `AssignedNeverResets` holds only for integer request values.
- Concurrency and transactions: the handlers run one at a time, as the source assumes.
