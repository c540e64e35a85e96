/** The records of the Little Lemon ordering backend -- cart lines, orders and
    order items -- with the pure functions the request handlers are specified
    by: filters over the tables, order totals, item snapshots and the
    field-by-field order update of PUT /orders/{id}.

    Money is counted in hundredths of the currency unit. */
module Records {

  type UserId = int
  type MenuItemId = int
  type OrderId = nat

  datatype Option<T> = None | Some(value: T)

  /** The ways a handler can reject a request. */
  datatype Error =
    | NotFound       // no such menu item or order (or not the requester's)
    | BadQuantity    // the quantity is missing or not an integer
    | EmptyCart      // "cart is empty"
    | WrongGroup     // "not from correct user group"
    | NotCrew        // "not a valid delivery crew"
    | NotAdmin       // the requester is not a staff user
    | Invalid        // a serializer rejected the data

  datatype Result<T> = Ok(value: T) | Err(error: Error)

  /** The authenticated requester; `staff` is Django's is_staff flag. */
  datatype Principal = Principal(id: UserId, staff: bool)

  datatype CartLine = CartLine(userId: UserId, menuItemId: MenuItemId, unitPrice: nat, price: int, quantity: int)

  datatype Order = Order(id: OrderId, userId: UserId, crew: Option<UserId>, status: int, total: int, date: int)

  datatype OrderItem = OrderItem(orderId: OrderId, menuItemId: MenuItemId, quantity: int, unitPrice: nat, price: int)

  /** The elements of `s` that satisfy `p`, in their original order. */
  function Filter<T(!new)>(s: seq<T>, p: T -> bool): (r: seq<T>)
    ensures |r| <= |s|
    ensures forall x :: x in r <==> x in s && p(x)
  {
    if s == [] then []
    else (if p(s[0]) then [s[0]] else []) + Filter(s[1..], p)
  }

  // The row filters the handlers use.
  function OwnedBy(u: UserId): CartLine -> bool { (l: CartLine) => l.userId == u }
  function NotOwnedBy(u: UserId): CartLine -> bool { (l: CartLine) => l.userId != u }
  function PlacedBy(u: UserId): Order -> bool { (o: Order) => o.userId == u }
  function AssignedTo(u: UserId): Order -> bool { (o: Order) => o.crew == Some(u) }
  function NotOfOrder(id: OrderId): OrderItem -> bool { (it: OrderItem) => it.orderId != id }

  lemma {:induction false} FilterAppend<T(!new)>(s: seq<T>, x: T, p: T -> bool)
    ensures Filter(s + [x], p) == Filter(s, p) + (if p(x) then [x] else [])
  {
    if s == [] {
      assert s + [x] == [x];
    } else {
      assert (s + [x])[1..] == s[1..] + [x];
      FilterAppend(s[1..], x, p);
    }
  }

  /** Filtering by a weaker condition first does not change the result. */
  lemma {:induction false} FilterOfFilter<T(!new)>(s: seq<T>, p: T -> bool, q: T -> bool)
    requires forall x :: q(x) ==> p(x)
    ensures Filter(Filter(s, p), q) == Filter(s, q)
  {
    if s != [] {
      FilterOfFilter(s[1..], p, q);
      assert q(s[0]) ==> p(s[0]);
      if p(s[0]) {
        var f := Filter(s, p);
        assert f == [s[0]] + Filter(s[1..], p);
        assert f[0] == s[0] && f[1..] == Filter(s[1..], p);
        assert Filter(f, q) == (if q(s[0]) then [s[0]] else []) + Filter(Filter(s[1..], p), q);
      } else {
        assert Filter(s, p) == Filter(s[1..], p);
      }
    }
  }

  /** Filtering by a condition nothing in `s` meets leaves nothing. */
  lemma {:induction false} FilterNone<T(!new)>(s: seq<T>, p: T -> bool)
    requires forall x :: x in s ==> !p(x)
    ensures Filter(s, p) == []
  {
    if s != [] {
      assert forall x :: x in s[1..] ==> x in s;
      FilterNone(s[1..], p);
    }
  }

  /** Filtering by a condition everything in `s` meets changes nothing. */
  lemma {:induction false} FilterAll<T(!new)>(s: seq<T>, p: T -> bool)
    requires forall x :: x in s ==> p(x)
    ensures Filter(s, p) == s
  {
    if s != [] {
      assert forall x :: x in s[1..] ==> x in s;
      FilterAll(s[1..], p);
      assert s == [s[0]] + s[1..];
    }
  }

  // ---------------------------------------------------------------------
  // Cart

  /** Adding a line gives exactly that line to its owner's cart, after the
      lines already there, and leaves every other user's cart as it was. */
  lemma AddLineFrame(ls: seq<CartLine>, l: CartLine, v: UserId)
    ensures Filter(ls + [l], OwnedBy(v)) == Filter(ls, OwnedBy(v)) + (if l.userId == v then [l] else [])
  {
    FilterAppend(ls, l, OwnedBy(v));
  }

  /** Clearing user u's cart empties it and leaves every other user's cart
      exactly as it was, lines and order alike. */
  lemma ClearCartFrame(ls: seq<CartLine>, u: UserId, v: UserId)
    ensures Filter(Filter(ls, NotOwnedBy(u)), OwnedBy(v)) == if u == v then [] else Filter(ls, OwnedBy(v))
  {
    if u == v {
      FilterNone(Filter(ls, NotOwnedBy(u)), OwnedBy(v));
    } else {
      FilterOfFilter(ls, NotOwnedBy(u), OwnedBy(v));
    }
  }

  /** Clearing a cart twice is clearing it once, and clearing an empty cart
      changes nothing. */
  lemma ClearCartIdempotent(ls: seq<CartLine>, u: UserId)
    ensures Filter(Filter(ls, NotOwnedBy(u)), NotOwnedBy(u)) == Filter(ls, NotOwnedBy(u))
    ensures Filter(ls, OwnedBy(u)) == [] ==> Filter(ls, NotOwnedBy(u)) == ls
  {
    FilterOfFilter(ls, NotOwnedBy(u), NotOwnedBy(u));
    if Filter(ls, OwnedBy(u)) == [] {
      assert forall l :: l in ls ==> NotOwnedBy(u)(l) by {
        forall l | l in ls ensures NotOwnedBy(u)(l) {
          assert l !in Filter(ls, OwnedBy(u));
        }
      }
      FilterAll(ls, NotOwnedBy(u));
    }
  }

  // ---------------------------------------------------------------------
  // Totals

  /** Python's int() of a price in hundredths: the whole units, truncated
      toward zero. */
  function IntPart(p: int): (r: int)
    ensures p >= 0 ==> 0 <= p - 100 * r < 100
    ensures p < 0 ==> -100 < p - 100 * r <= 0
  {
    if p >= 0 then p / 100 else -((-p) / 100)
  }

  /** The order total of a cart: the sum of the whole-unit parts of its line
      prices, in hundredths. */
  function Total(ls: seq<CartLine>): (r: int)
    ensures r % 100 == 0
  {
    if ls == [] then 0 else 100 * IntPart(ls[0].price) + Total(ls[1..])
  }

  function SumPrices(ls: seq<CartLine>): int
  {
    if ls == [] then 0 else ls[0].price + SumPrices(ls[1..])
  }

  function SumItemPrices(its: seq<OrderItem>): int
  {
    if its == [] then 0 else its[0].price + SumItemPrices(its[1..])
  }

  /** With non-negative prices the total never exceeds the sum of the
      prices and drops less than one unit per line. */
  lemma {:induction false} TotalBounds(ls: seq<CartLine>)
    requires forall l :: l in ls ==> l.price >= 0
    ensures 0 <= Total(ls) <= SumPrices(ls)
    ensures ls != [] ==> SumPrices(ls) - Total(ls) < 100 * |ls|
  {
    if ls != [] {
      assert forall l :: l in ls[1..] ==> l in ls;
      TotalBounds(ls[1..]);
    }
  }

  /** The total equals the sum of the prices exactly when no price has a
      fractional part. */
  lemma {:induction false} TotalExactIffWhole(ls: seq<CartLine>)
    requires forall l :: l in ls ==> l.price >= 0
    ensures Total(ls) == SumPrices(ls) <==> forall l :: l in ls ==> l.price % 100 == 0
  {
    if ls != [] {
      assert forall l :: l in ls[1..] ==> l in ls;
      TotalExactIffWhole(ls[1..]);
      TotalBounds(ls[1..]);
      assert forall l :: l in ls <==> l == ls[0] || l in ls[1..];
    }
  }

  /** Two pizzas at 10.00 and one soda at 3.00 make a total of 23.00. */
  lemma PizzaAndSodaTotal()
    ensures var ls := [CartLine(7, 1, 1000, 2000, 2), CartLine(7, 2, 300, 300, 1)];
            Total(ls) == 2300 && SumPrices(ls) == 2300
  {
  }

  /** A single line priced 1.50 gives an order total of 1.00 while its order
      item keeps 1.50: the items of an order need not add up to its total. */
  lemma TruncatedTotal()
    ensures var ls := [CartLine(7, 1, 150, 150, 1)];
            Total(ls) == 100 && SumItemPrices(Snapshots(1, ls)) == 150
  {
  }

  // ---------------------------------------------------------------------
  // Placing an order

  /** Every cart line's price is its unit price times its quantity. */
  ghost predicate LinePricesHold(ls: seq<CartLine>)
  {
    forall l :: l in ls ==> l.price == l.unitPrice * l.quantity
  }

  ghost predicate ItemPricesHold(its: seq<OrderItem>)
  {
    forall it :: it in its ==> it.price == it.unitPrice * it.quantity
  }

  /** The order POST /orders saves for a cart: no courier yet, status 0. */
  function NewOrder(id: OrderId, u: UserId, mine: seq<CartLine>, today: int): (r: Order)
    ensures r.id == id && r.userId == u && r.date == today
    ensures r.crew == None && r.status == 0
    ensures r.total % 100 == 0
    ensures (forall l :: l in mine ==> l.price >= 0) ==> 0 <= r.total <= SumPrices(mine)
  {
    var o := Order(id, u, None, 0, Total(mine), today);
    if forall l :: l in mine ==> l.price >= 0 then TotalBounds(mine); o else o
  }

  /** The order item copied from one cart line. */
  function Snapshot(id: OrderId, l: CartLine): OrderItem
  {
    OrderItem(id, l.menuItemId, l.quantity, l.unitPrice, l.price)
  }

  function Snapshots(id: OrderId, ls: seq<CartLine>): (r: seq<OrderItem>)
    ensures |r| == |ls|
    ensures forall k :: 0 <= k < |r| ==>
              && r[k].orderId == id && r[k].menuItemId == ls[k].menuItemId
              && r[k].quantity == ls[k].quantity && r[k].unitPrice == ls[k].unitPrice
              && r[k].price == ls[k].price
  {
    seq(|ls|, k requires 0 <= k < |ls| => Snapshot(id, ls[k]))
  }

  /** The items of an order carry exactly the prices of the cart it came from. */
  lemma {:induction false} SnapshotsKeepPrices(id: OrderId, ls: seq<CartLine>)
    ensures SumItemPrices(Snapshots(id, ls)) == SumPrices(ls)
  {
    if ls != [] {
      assert Snapshots(id, ls)[1..] == Snapshots(id, ls[1..]);
      SnapshotsKeepPrices(id, ls[1..]);
    }
  }

  /** With non-negative prices an order's total never exceeds what its items
      add up to, and falls short by less than one unit per item. */
  lemma OrderTotalVsItems(id: OrderId, mine: seq<CartLine>)
    requires forall l :: l in mine ==> l.price >= 0
    ensures Total(mine) <= SumItemPrices(Snapshots(id, mine))
    ensures mine != [] ==> SumItemPrices(Snapshots(id, mine)) < Total(mine) + 100 * |Snapshots(id, mine)|
  {
    SnapshotsKeepPrices(id, mine);
    TotalBounds(mine);
  }

  /** How many of `snaps`, saved one after another onto the table `existing`,
      pass `ok` before the first one that fails. */
  function ValidPrefix(existing: seq<OrderItem>, snaps: seq<OrderItem>,
                       ok: (seq<OrderItem>, OrderItem) -> bool): (n: nat)
    ensures n <= |snaps|
    decreases |snaps|
  {
    if snaps == [] || !ok(existing, snaps[0]) then 0
    else 1 + ValidPrefix(existing + [snaps[0]], snaps[1..], ok)
  }

  /** Every item before the count passes on the table as it then is, and the
      item at the count, if there is one, fails. */
  lemma {:induction false} ValidPrefixStops(existing: seq<OrderItem>, snaps: seq<OrderItem>,
                                            ok: (seq<OrderItem>, OrderItem) -> bool)
    ensures var n := ValidPrefix(existing, snaps, ok);
            && (forall k :: 0 <= k < n ==> ok(existing + snaps[..k], snaps[k]))
            && (n < |snaps| ==> !ok(existing + snaps[..n], snaps[n]))
    decreases |snaps|
  {
    assert existing + snaps[..0] == existing;
    if snaps != [] && ok(existing, snaps[0]) {
      ValidPrefixStops(existing + [snaps[0]], snaps[1..], ok);
      forall k | 1 <= k <= |snaps|
        ensures existing + snaps[..k] == (existing + [snaps[0]]) + snaps[1..][..k - 1]
      {
        assert snaps[..k] == [snaps[0]] + snaps[1..][..k - 1];
      }
    }
  }

  /** Saving stops at position i exactly when the item there fails. */
  lemma ValidPrefixAt(existing: seq<OrderItem>, snaps: seq<OrderItem>,
                      ok: (seq<OrderItem>, OrderItem) -> bool, i: nat)
    requires i <= ValidPrefix(existing, snaps, ok) && i < |snaps|
    ensures ok(existing + snaps[..i], snaps[i]) <==> i < ValidPrefix(existing, snaps, ok)
  {
    ValidPrefixStops(existing, snaps, ok);
  }

  /** A cart of two lines whose second one the item serializer rejects (here
      for quantity 0) gets exactly one item saved before the request fails. */
  lemma PartialPlacement()
    ensures var ls := [CartLine(7, 1, 1000, 1000, 1), CartLine(7, 2, 300, 0, 0)];
            ValidPrefix([], Snapshots(1, ls), (t: seq<OrderItem>, it: OrderItem) => it.quantity > 0) == 1
  {
    var ls := [CartLine(7, 1, 1000, 1000, 1), CartLine(7, 2, 300, 0, 0)];
    var snaps := Snapshots(1, ls);
    assert snaps[1..] == [Snapshot(1, ls[1])];
  }

  // ---------------------------------------------------------------------
  // Updating an order

  /** Python truthiness of an optional integer from the request body. */
  predicate Truthy(v: Option<int>)
  {
    v.Some? && v.value != 0
  }

  /** The order after PUT's partial update: a truthy crew id or status is
      written, a falsy one is ignored. */
  function Assigned(o: Order, crewId: Option<UserId>, status: Option<int>): (r: Order)
    ensures r.id == o.id && r.userId == o.userId && r.total == o.total && r.date == o.date
  {
    o.(crew := if Truthy(crewId) then crewId else o.crew,
       status := if Truthy(status) then status.value else o.status)
  }

  /** PUT cannot move an order back to status 0, nor take its courier away. */
  lemma AssignedNeverResets(o: Order, crewId: Option<UserId>, status: Option<int>)
    ensures o.status != 0 ==> Assigned(o, crewId, status).status != 0
    ensures o.crew.Some? ==> Assigned(o, crewId, status).crew.Some?
  {
  }

  /** The first position of an order with the given id. */
  function Find(os: seq<Order>, id: OrderId): (r: Option<nat>)
    ensures r.Some? ==> r.value < |os| && os[r.value].id == id
    ensures r.Some? ==> forall k :: 0 <= k < r.value ==> os[k].id != id
    ensures r.None? <==> forall o :: o in os ==> o.id != id
  {
    if os == [] then None
    else if os[0].id == id then Some(0)
    else match Find(os[1..], id)
      case None => None
      case Some(k) => Some(k + 1)
  }

  /** Ids are unique in an order table. */
  ghost predicate UniqueIds(os: seq<Order>)
  {
    forall i, j :: 0 <= i < j < |os| ==> os[i].id != os[j].id
  }

  ghost predicate IdsBelow(os: seq<Order>, next: nat)
  {
    forall k :: 0 <= k < |os| ==> os[k].id < next
  }

  /** Saving an order under the next id keeps ids unique. */
  lemma FreshIdKeepsUnique(os: seq<Order>, o: Order, next: nat)
    requires UniqueIds(os) && IdsBelow(os, next) && o.id == next
    ensures UniqueIds(os + [o]) && IdsBelow(os + [o], next + 1)
  {
  }

  /** Deleting the position of an id from a table with unique ids removes the
      order with that id and no other. */
  lemma DeleteExactlyThat(os: seq<Order>, id: OrderId, i: nat)
    requires UniqueIds(os) && i < |os| && os[i].id == id
    ensures forall o :: o in os[..i] + os[i + 1..] <==> o in os && o.id != id
  {
    forall o ensures o in os[..i] + os[i + 1..] <==> o in os && o.id != id {
      if o in os[..i] + os[i + 1..] {
        var k :| 0 <= k < |os[..i] + os[i + 1..]| && (os[..i] + os[i + 1..])[k] == o;
        if k < i { assert o == os[k]; } else { assert o == os[k + 1]; }
      }
      if o in os && o.id != id {
        var k :| 0 <= k < |os| && os[k] == o;
        if k < i { assert (os[..i] + os[i + 1..])[k] == o; }
        else { assert (os[..i] + os[i + 1..])[k - 1] == o; }
      }
    }
  }
}
