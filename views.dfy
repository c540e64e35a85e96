/** The cart and order request handlers of the Little Lemon API (CartView,
    OrderView and SingleOrderView) over an in-memory store of the tables they
    touch. Each handler takes the requester explicitly and answers Ok or Err;
    a rejected request changes nothing unless its contract says otherwise. */
module Views {
  import opened Records

  class Store {
    // The tables.
    var lines: seq<CartLine>
    var orders: seq<Order>
    var items: seq<OrderItem>
    /** Price of each menu item, in hundredths. */
    var menu: map<MenuItemId, nat>
    /** Members of the "manager" and "delivery crew" groups. */
    var managers: set<UserId>
    var crew: set<UserId>
    /** The id the database gives the next order. */
    var nextId: nat

    // The serializers' validation rules, fixed by the data model. Each
    // receives the table a new row would be saved into.
    const lineOk: (seq<CartLine>, CartLine) -> bool
    const orderOk: (seq<Order>, Order) -> bool
    const itemOk: (seq<OrderItem>, OrderItem) -> bool
    const statusOk: int -> bool

    /** Order ids are unique and below the next id; every cart line and
        order item has price == unit price * quantity. */
    ghost predicate Valid()
      reads this
    {
      UniqueIds(orders) && IdsBelow(orders, nextId) && LinePricesHold(lines) && ItemPricesHold(items)
    }

    constructor (menu: map<MenuItemId, nat>, managers: set<UserId>, crew: set<UserId>,
                 lineOk: (seq<CartLine>, CartLine) -> bool, orderOk: (seq<Order>, Order) -> bool,
                 itemOk: (seq<OrderItem>, OrderItem) -> bool, statusOk: int -> bool)
      ensures Valid()
      ensures this.menu == menu && this.managers == managers && this.crew == crew
      ensures this.lineOk == lineOk && this.orderOk == orderOk
      ensures this.itemOk == itemOk && this.statusOk == statusOk
      ensures lines == [] && orders == [] && items == [] && nextId == 1
    {
      this.menu, this.managers, this.crew := menu, managers, crew;
      this.lineOk, this.orderOk, this.itemOk, this.statusOk := lineOk, orderOk, itemOk, statusOk;
      lines, orders, items, nextId := [], [], [], 1;
    }

    // -------------------------------------------------------------------
    // CartView

    /** GET /cart/menu-items: the requester's cart lines, in table order. */
    method ListLines(p: Principal) returns (r: seq<CartLine>)
      ensures forall l :: l in r <==> l in lines && l.userId == p.id
      ensures r == Filter(lines, OwnedBy(p.id))
    {
      r := Filter(lines, OwnedBy(p.id));
    }

    /** POST /cart/menu-items: a new line at the item's current price. A
        line for an item already in the cart is added beside it, not merged. */
    method AddLine(p: Principal, menuItemId: MenuItemId, quantity: Option<int>) returns (r: Result<CartLine>)
      requires Valid()
      modifies this`lines
      ensures Valid()
      ensures menuItemId !in menu ==> r == Err(NotFound)
      ensures menuItemId in menu && quantity.None? ==> r == Err(BadQuantity)
      ensures r.Ok? <==> menuItemId in menu && quantity.Some? &&
                         lineOk(old(lines), CartLine(p.id, menuItemId, menu[menuItemId],
                                                     menu[menuItemId] * quantity.value, quantity.value))
      ensures r.Ok? ==> r.value.userId == p.id && r.value.menuItemId == menuItemId
      ensures r.Ok? ==> r.value.unitPrice == menu[menuItemId] && r.value.quantity == quantity.value
      ensures r.Ok? ==> r.value.price == r.value.unitPrice * r.value.quantity
      ensures r.Ok? ==> lines == old(lines) + [r.value]
      ensures menuItemId in menu && quantity.Some? && r.Err? ==> r == Err(Invalid)
      ensures r.Err? ==> lines == old(lines)
    {
      if menuItemId !in menu {
        return Err(NotFound);
      }
      if quantity.None? {
        return Err(BadQuantity);
      }
      var unit := menu[menuItemId];
      var line := CartLine(p.id, menuItemId, unit, unit * quantity.value, quantity.value);
      if !lineOk(lines, line) {
        return Err(Invalid);
      }
      lines := lines + [line];
      r := Ok(line);
    }

    /** DELETE /cart/menu-items: removes every line of the requester and no
        other; always answers ok. */
    method ClearCart(p: Principal) returns (r: Result<()>)
      requires Valid()
      modifies this`lines
      ensures Valid()
      ensures r == Ok(())
      ensures lines == Filter(old(lines), NotOwnedBy(p.id))
    {
      lines := Filter(lines, NotOwnedBy(p.id));
      r := Ok(());
    }

    // -------------------------------------------------------------------
    // OrderView

    /** GET /orders: every order for a manager (whatever else they are);
        otherwise the orders assigned to a delivery-crew member; otherwise
        the requester's own orders. */
    method ListOrders(p: Principal) returns (r: seq<Order>)
      ensures p.id in managers ==> r == orders
      ensures p.id !in managers && p.id in crew ==>
                (forall o :: o in r <==> o in orders && o.crew == Some(p.id)) &&
                r == Filter(orders, AssignedTo(p.id))
      ensures p.id !in managers && p.id !in crew ==>
                (forall o :: o in r <==> o in orders && o.userId == p.id) &&
                r == Filter(orders, PlacedBy(p.id))
      ensures |r| <= |orders|
    {
      if p.id in managers {
        r := orders;
      } else if p.id in crew {
        r := Filter(orders, AssignedTo(p.id));
      } else {
        r := Filter(orders, PlacedBy(p.id));
      }
    }

    /** POST /orders: turns the requester's cart into an order dated `today`
        with one item per cart line, then empties the cart. Not atomic: the
        order is saved first and the items one at a time, and the first item
        the serializer rejects ends the request with the order and the items
        saved so far kept and the cart left as it was. */
    method PlaceOrder(p: Principal, today: int) returns (r: Result<Order>)
      requires Valid()
      modifies this`orders, this`items, this`lines, this`nextId
      ensures Valid()
      ensures old(Filter(lines, OwnedBy(p.id))) == [] ==> r == Err(EmptyCart) && unchanged(this)
      ensures old(Filter(lines, OwnedBy(p.id))) != [] &&
              !orderOk(old(orders), NewOrder(old(nextId), p.id, old(Filter(lines, OwnedBy(p.id))), today)) ==>
                r == Err(Invalid) && unchanged(this)
      ensures old(Placeable(p.id, today)) ==>
                var o := NewOrder(old(nextId), p.id, old(Filter(lines, OwnedBy(p.id))), today);
                orders == old(orders) + [o] && nextId == old(nextId) + 1 &&
                items == old(items) + Snapshots(o.id, old(Filter(lines, OwnedBy(p.id))))[..old(SavedItems(p.id))]
      ensures old(Placeable(p.id, today)) && old(SavedItems(p.id) == |Filter(lines, OwnedBy(p.id))|) ==>
                r == Ok(orders[|orders| - 1]) && lines == old(Filter(lines, NotOwnedBy(p.id)))
      ensures old(Placeable(p.id, today)) && old(SavedItems(p.id) < |Filter(lines, OwnedBy(p.id))|) ==>
                r == Err(Invalid) && lines == old(lines)
    {
      var mine := Filter(lines, OwnedBy(p.id));
      if mine == [] {
        return Err(EmptyCart);
      }
      var o := NewOrder(nextId, p.id, mine, today);
      if !orderOk(orders, o) {
        return Err(Invalid);
      }
      ghost var snaps := Snapshots(o.id, mine);
      ghost var n := SavedItems(p.id);
      FreshIdKeepsUnique(orders, o, nextId);
      orders := orders + [o];
      nextId := nextId + 1;

      var i := 0;
      while i < |mine|
        invariant i <= n
        invariant items == old(items) + snaps[..i]
        invariant ItemPricesHold(items)
        invariant lines == old(lines) && orders == old(orders) + [o] && nextId == old(nextId) + 1
      {
        var it := Snapshot(o.id, mine[i]);
        assert it == snaps[i];
        ValidPrefixAt(old(items), snaps, itemOk, i);
        if !itemOk(items, it) {
          return Err(Invalid);
        }
        assert mine[i] in lines;
        items := items + [it];
        assert snaps[..i + 1] == snaps[..i] + [it];
        i := i + 1;
      }
      assert snaps[..i] == snaps;
      lines := Filter(lines, NotOwnedBy(p.id));
      r := Ok(o);
    }

    /** The requester has a non-empty cart and the order for it passes the
        order serializer. */
    ghost predicate Placeable(u: UserId, today: int)
      reads this
    {
      var mine := Filter(lines, OwnedBy(u));
      mine != [] && orderOk(orders, NewOrder(nextId, u, mine, today))
    }

    /** How many order items POST /orders saves before the first one the
        item serializer rejects. */
    ghost function SavedItems(u: UserId): nat
      reads this
    {
      ValidPrefix(items, Snapshots(nextId, Filter(lines, OwnedBy(u))), itemOk)
    }

    // -------------------------------------------------------------------
    // SingleOrderView

    /** GET /orders/{id}: the order only when the requester placed it,
        whatever groups the requester is in; not found otherwise. */
    method GetOrder(p: Principal, id: OrderId) returns (r: Result<Order>)
      ensures r.Ok? <==> exists o :: o in orders && o.id == id && o.userId == p.id
      ensures r.Ok? ==> r.value in orders && r.value.id == id && r.value.userId == p.id
      ensures r.Err? ==> r.error == NotFound
    {
      var mine := Filter(orders, PlacedBy(p.id));
      match Find(mine, id)
      case None =>
        r := Err(NotFound);
      case Some(k) =>
        r := Ok(mine[k]);
    }

    /** PATCH /orders/{id}: a manager or delivery-crew member sets the
        status of any order, in either direction; nothing else changes. */
    method PatchStatus(p: Principal, id: OrderId, status: Option<int>) returns (r: Result<Order>)
      requires Valid()
      modifies this`orders
      ensures Valid()
      ensures p.id !in managers && p.id !in crew ==> r == Err(WrongGroup)
      ensures (p.id in managers || p.id in crew) && Find(old(orders), id).None? ==> r == Err(NotFound)
      ensures r.Ok? <==> (p.id in managers || p.id in crew) && Find(old(orders), id).Some? &&
                         status.Some? && statusOk(status.value)
      ensures r.Ok? ==> var k := Find(old(orders), id).value;
                        orders == old(orders)[k := old(orders)[k].(status := status.value)] &&
                        r.value == orders[k]
      ensures r.Err? ==> orders == old(orders)
    {
      if p.id !in managers && p.id !in crew {
        return Err(WrongGroup);
      }
      match Find(orders, id)
      case None =>
        r := Err(NotFound);
      case Some(k) =>
        if status.None? || !statusOk(status.value) {
          r := Err(Invalid);
        } else {
          orders := orders[k := orders[k].(status := status.value)];
          r := Ok(orders[k]);
        }
    }

    /** PUT /orders/{id} (staff only): assigns a delivery-crew member and/or
        sets the status. A crew id or status that is falsy (absent or 0) is
        ignored; a truthy crew id must be in the delivery crew group. */
    method PutAssign(p: Principal, id: OrderId, crewId: Option<UserId>, status: Option<int>)
      returns (r: Result<Order>)
      requires Valid()
      modifies this`orders
      ensures Valid()
      ensures !p.staff ==> r == Err(NotAdmin)
      ensures p.staff && Find(old(orders), id).None? ==> r == Err(NotFound)
      ensures p.staff && Find(old(orders), id).Some? && Truthy(crewId) && crewId.value !in crew ==>
                r == Err(NotCrew)
      ensures r.Ok? <==> p.staff && Find(old(orders), id).Some? &&
                         (Truthy(crewId) ==> crewId.value in crew) &&
                         (Truthy(status) ==> statusOk(status.value))
      ensures r.Ok? ==> var k := Find(old(orders), id).value;
                        orders == old(orders)[k := Assigned(old(orders)[k], crewId, status)] &&
                        r.value == orders[k]
      ensures r.Err? ==> orders == old(orders)
    {
      if !p.staff {
        return Err(NotAdmin);
      }
      match Find(orders, id)
      case None =>
        r := Err(NotFound);
      case Some(k) =>
        if Truthy(crewId) && crewId.value !in crew {
          r := Err(NotCrew);
        } else if Truthy(status) && !statusOk(status.value) {
          r := Err(Invalid);
        } else {
          orders := orders[k := Assigned(orders[k], crewId, status)];
          r := Ok(orders[k]);
        }
    }

    /** DELETE /orders/{id} (staff only): removes the order with that id,
        and its items with it. */
    method DeleteOrder(p: Principal, id: OrderId) returns (r: Result<()>)
      requires Valid()
      modifies this`orders, this`items
      ensures Valid()
      ensures !p.staff ==> r == Err(NotAdmin)
      ensures p.staff && Find(old(orders), id).None? ==> r == Err(NotFound)
      ensures r.Ok? <==> p.staff && Find(old(orders), id).Some?
      ensures r.Ok? ==> forall o :: o in orders <==> o in old(orders) && o.id != id
      ensures r.Ok? ==> var k := Find(old(orders), id).value;
                        orders == old(orders)[..k] + old(orders)[k + 1..] &&
                        items == Filter(old(items), NotOfOrder(id))
      ensures r.Err? ==> orders == old(orders) && items == old(items)
    {
      if !p.staff {
        return Err(NotAdmin);
      }
      match Find(orders, id)
      case None =>
        r := Err(NotFound);
      case Some(k) =>
        DeleteExactlyThat(orders, id, k);
        orders := orders[..k] + orders[k + 1..];
        items := Filter(items, NotOfOrder(id));
        r := Ok(());
    }
  }
}
