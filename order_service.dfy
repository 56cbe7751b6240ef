/** The order lifecycle (OrderService): creating an order against the
    directories and the catalogue, replacing its lines, the status guard,
    cancellation, deletion, and the read-only queries. */
module OrderLifecycle {
  import opened Common
  import opened MenuItems
  import opened OrderItems
  import opened Orders
  import opened Store
  import OrderRepository

  // ---------------------------------------------------------------------------
  // createOrder's reference checks

  /** The failure of the user and restaurant lookups, if any, in the order
      they are made; a missing reference is a null id handed to findById. */
  function ReferenceError(draft: OrderRecord, users: set<int>, restaurants: set<int>): (e: Option<Error>)
    ensures e.None? <==>
      draft.userId.Some? && draft.userId.value in users && draft.restaurantId.Some? && draft.restaurantId.value in restaurants
    ensures e == Some(UserNotFound) <==> draft.userId.Some? && draft.userId.value !in users
    ensures e == Some(RestaurantNotFound) <==>
      draft.userId.Some? && draft.userId.value in users && draft.restaurantId.Some? && draft.restaurantId.value !in restaurants
    ensures e == Some(MissingReference) <==>
      draft.userId.None? || (draft.userId.value in users && draft.restaurantId.None?)
  {
    if draft.userId.None? then Some(MissingReference)
    else if draft.userId.value !in users then Some(UserNotFound)
    else if draft.restaurantId.None? then Some(MissingReference)
    else if draft.restaurantId.value !in restaurants then Some(RestaurantNotFound)
    else None
  }

  // ---------------------------------------------------------------------------
  // The per-line snapshot, shared by createOrder and updateOrder

  /** The catalogue lookup of one line: the line must name a menu item with an
      id, and that id must be in the catalogue; the resolved id is returned. */
  function ResolveMenuItem(item: OrderItem, catalogue: map<int, MenuItem>): (r: Result<int>)
    ensures r.Ok? <==> item.menuItem.Some? && item.menuItem.value in catalogue
    ensures r.Ok? ==> item.menuItem == Some(r.value) && r.value in catalogue
    ensures item.menuItem.Some? && item.menuItem.value !in catalogue ==> r == Err(MenuItemNotFound(item.menuItem.value))
    ensures item.menuItem.None? ==> r == Err(MissingReference)
  {
    match item.menuItem
    case None => Err(MissingReference)
    case Some(menuItemId) =>
      if menuItemId in catalogue then Ok(menuItemId) else Err(MenuItemNotFound(menuItemId))
  }

  /** The lines of order `orderId` after the loop over them: every line
      snapshotted from the catalogue in turn, or the first line's failure. */
  function SnapshotItems(items: seq<OrderItem>, catalogue: map<int, MenuItem>, orderId: int): Result<seq<OrderItem>>
    decreases |items|
  {
    if items == [] then Ok([])
    else
      var n := |items| - 1;
      match SnapshotItems(items[..n], catalogue, orderId)
      case Err(e) => Err(e)
      case Ok(done) =>
        match ResolveMenuItem(items[n], catalogue)
        case Err(e) => Err(e)
        case Ok(k) => Ok(done + [Snapshot(items[n], catalogue, k, orderId)])
  }

  /** The snapshot succeeds exactly when every line resolves, and then its
      i-th line is the i-th supplied line snapshotted from its menu item. */
  lemma {:induction false} SnapshotItemsSucceed(items: seq<OrderItem>, catalogue: map<int, MenuItem>, orderId: int)
    ensures var r := SnapshotItems(items, catalogue, orderId);
      && (r.Ok? <==> forall i :: 0 <= i < |items| ==> ResolveMenuItem(items[i], catalogue).Ok?)
      && (r.Ok? ==> |r.value| == |items| && forall i :: 0 <= i < |items| ==>
            r.value[i] == Snapshot(items[i], catalogue, ResolveMenuItem(items[i], catalogue).value, orderId))
    decreases |items|
  {
    if items != [] {
      var n := |items| - 1;
      var init := items[..n];
      assert forall i :: 0 <= i < n ==> init[i] == items[i];
      SnapshotItemsSucceed(init, catalogue, orderId);
      var prefix := SnapshotItems(init, catalogue, orderId);
      if prefix.Ok? && ResolveMenuItem(items[n], catalogue).Ok? {
        var all := prefix.value + [Snapshot(items[n], catalogue, ResolveMenuItem(items[n], catalogue).value, orderId)];
        assert forall i :: 0 <= i < n ==> all[i] == prefix.value[i];
      }
    }
  }

  /** A failed snapshot fails with the failure of the first line that does
      not resolve. */
  lemma {:induction false} SnapshotItemsFail(items: seq<OrderItem>, catalogue: map<int, MenuItem>, orderId: int)
    requires SnapshotItems(items, catalogue, orderId).Err?
    ensures exists i ::
              && 0 <= i < |items|
              && ResolveMenuItem(items[i], catalogue) == Err(SnapshotItems(items, catalogue, orderId).error)
              && (forall j :: 0 <= j < i ==> ResolveMenuItem(items[j], catalogue).Ok?)
    decreases |items|
  {
    var n := |items| - 1;
    var init := items[..n];
    assert forall i :: 0 <= i < n ==> init[i] == items[i];
    SnapshotItemsSucceed(init, catalogue, orderId);
    if SnapshotItems(init, catalogue, orderId).Err? {
      SnapshotItemsFail(init, catalogue, orderId);
      var i :| 0 <= i < n && ResolveMenuItem(init[i], catalogue) == Err(SnapshotItems(init, catalogue, orderId).error)
        && (forall j :: 0 <= j < i ==> ResolveMenuItem(init[j], catalogue).Ok?);
      assert ResolveMenuItem(items[i], catalogue) == Err(SnapshotItems(items, catalogue, orderId).error);
    } else {
      assert ResolveMenuItem(items[n], catalogue) == Err(SnapshotItems(items, catalogue, orderId).error);
    }
  }

  /** Every line of a successful snapshot belongs to the order, has its
      subtotal equal to quantity times the captured price, and references a
      row of the catalogue. */
  lemma SnapshotLinesValid(items: seq<OrderItem>, catalogue: map<int, MenuItem>, orderId: int)
    requires SnapshotItems(items, catalogue, orderId).Ok?
    ensures LinesFit(SnapshotItems(items, catalogue, orderId).value, orderId, catalogue)
  {
    SnapshotItemsSucceed(items, catalogue, orderId);
  }

  /** A failure among the first `j` lines is the failure of all of them: the
      loop stops at the first line it cannot resolve. */
  lemma {:induction false} SnapshotErrorPropagates(items: seq<OrderItem>, j: nat, catalogue: map<int, MenuItem>, orderId: int)
    requires j <= |items| && SnapshotItems(items[..j], catalogue, orderId).Err?
    ensures SnapshotItems(items, catalogue, orderId) == SnapshotItems(items[..j], catalogue, orderId)
    decreases |items|
  {
    if j < |items| {
      var n := |items| - 1;
      assert items[..n][..j] == items[..j];
      SnapshotErrorPropagates(items[..n], j, catalogue, orderId);
    } else {
      assert items[..j] == items;
    }
  }

  /** One more resolved line extends a successful snapshot by that line. */
  lemma SnapshotStep(items: seq<OrderItem>, i: nat, catalogue: map<int, MenuItem>, orderId: int, done: seq<OrderItem>)
    requires i < |items| && SnapshotItems(items[..i], catalogue, orderId) == Ok(done)
    ensures ResolveMenuItem(items[i], catalogue).Ok? ==>
      SnapshotItems(items[..i + 1], catalogue, orderId) == Ok(done + [Snapshot(items[i], catalogue, ResolveMenuItem(items[i], catalogue).value, orderId)])
    ensures ResolveMenuItem(items[i], catalogue).Err? ==>
      SnapshotItems(items, catalogue, orderId) == Err(ResolveMenuItem(items[i], catalogue).error)
  {
    assert items[..i + 1][..i] == items[..i];
    if ResolveMenuItem(items[i], catalogue).Err? {
      SnapshotErrorPropagates(items, i + 1, catalogue, orderId);
    }
  }

  // ---------------------------------------------------------------------------
  // updateOrderStatus's guard

  /** The guard of updateOrderStatus: a cancelled or delivered order may only
      be set to the status it already has. */
  function StatusGuard(current: Option<OrderStatus>, newStatus: OrderStatus): (e: Option<Error>)
    ensures e.None? <==> current.None? || !IsTerminal(current.value) || newStatus == current.value
    ensures e == Some(CannotUpdateCancelledOrder) <==> current == Some(Cancelled) && newStatus != Cancelled
    ensures e == Some(CannotUpdateDeliveredOrder) <==> current == Some(Delivered) && newStatus != Delivered
  {
    if current == Some(Cancelled) && newStatus != Cancelled then Some(CannotUpdateCancelledOrder)
    else if current == Some(Delivered) && newStatus != Delivered then Some(CannotUpdateDeliveredOrder)
    else None
  }

  /** The documented lifecycle: each status with the ones it may move to. */
  predicate DocumentedTransition(from: OrderStatus, to: OrderStatus)
  {
    match from
    case Pending => to == Confirmed || to == Cancelled
    case Confirmed => to == Preparing || to == Cancelled
    case Preparing => to == OutForDelivery || to == Cancelled
    case OutForDelivery => to == Delivered || to == Cancelled
    case Delivered => to == Delivered
    case Cancelled => to == Cancelled
  }

  /** The guard lets through every documented transition. */
  lemma GuardAdmitsDocumentedTransitions(from: OrderStatus, to: OrderStatus)
    requires DocumentedTransition(from, to)
    ensures StatusGuard(Some(from), to).None?
  {
  }

  /** The guard lets through more than the documented lifecycle: a
      non-terminal order may jump to any status, back to Pending included. */
  lemma GuardAdmitsUndocumentedJumps()
    ensures StatusGuard(Some(Pending), Delivered).None? && !DocumentedTransition(Pending, Delivered)
    ensures StatusGuard(Some(OutForDelivery), Pending).None? && !DocumentedTransition(OutForDelivery, Pending)
  {
  }

  /** Both agree on terminal states: only the idempotent re-set is accepted. */
  lemma GuardAgreesOnTerminalStates(from: OrderStatus, to: OrderStatus)
    requires IsTerminal(from)
    ensures StatusGuard(Some(from), to).None? <==> DocumentedTransition(from, to)
  {
  }

  /** createOrder's loop: each line of the order replaced, in place, by its
      snapshot from the catalogue, stopping at the first line that fails. */
  method SnapshotLinesInPlace(e: OrderEntity, catalogue: map<int, MenuItem>, orderId: int) returns (r: Result<()>)
    modifies e
    ensures var snap := SnapshotItems(old(e.orderItems), catalogue, orderId);
      && (snap.Err? ==> r == Err(snap.error))
      && (snap.Ok? ==> r == Ok(()) && e.Record() == old(e.Record()).(orderItems := snap.value))
  {
    var items := e.orderItems;
    ghost var before := e.Record();
    var i := 0;
    while i < |items|
      invariant 0 <= i <= |items|
      invariant |e.orderItems| == |items| && e.orderItems[i..] == items[i..]
      invariant SnapshotItems(items[..i], catalogue, orderId) == Ok(e.orderItems[..i])
      invariant e.Record() == before.(orderItems := e.orderItems)
      modifies e
    {
      var m := ResolveMenuItem(items[i], catalogue);
      SnapshotStep(items, i, catalogue, orderId, e.orderItems[..i]);
      if m.Err? {
        return Err(m.error);
      }
      var line := Snapshot(items[i], catalogue, m.value, orderId);
      assert e.orderItems[..i] + [line] == e.orderItems[i := line][..i + 1];
      e.orderItems := e.orderItems[i := line];
      i := i + 1;
    }
    assert items[..i] == items && e.orderItems[..i] == e.orderItems;
    r := Ok(());
  }

  /** updateOrder's loop: each supplied line snapshotted from the catalogue
      and appended with addOrderItem, stopping at the first line that fails. */
  method AppendSnapshotLines(e: OrderEntity, items: seq<OrderItem>, catalogue: map<int, MenuItem>, orderId: int)
    returns (r: Result<()>)
    requires e.id == Some(orderId)
    modifies e
    ensures var snap := SnapshotItems(items, catalogue, orderId);
      && (snap.Err? ==> r == Err(snap.error))
      && (snap.Ok? ==>
            && r == Ok(())
            && e.Record() == old(e.Record()).(orderItems := old(e.orderItems) + snap.value, totalAmount := e.totalAmount))
  {
    ghost var before := e.Record();
    var i := 0;
    while i < |items|
      invariant 0 <= i <= |items|
      invariant SnapshotItems(items[..i], catalogue, orderId).Ok?
      invariant e.orderItems == before.orderItems + SnapshotItems(items[..i], catalogue, orderId).value
      invariant e.Record() == before.(orderItems := e.orderItems, totalAmount := e.totalAmount)
      modifies e
    {
      var m := ResolveMenuItem(items[i], catalogue);
      ghost var done := SnapshotItems(items[..i], catalogue, orderId).value;
      SnapshotStep(items, i, catalogue, orderId, done);
      if m.Err? {
        return Err(m.error);
      }
      var line := Snapshot(items[i], catalogue, m.value, orderId);
      assert line.(order := e.id) == line;
      e.AddOrderItem(line);
      i := i + 1;
    }
    assert items[..i] == items;
    r := Ok(());
  }

  /** The entity createOrder builds for key `k`: the draft with that id, the
      given order time and status PENDING, each line snapshotted in place from
      the catalogue, and the total computed. */
  method BuildOrder(draft: OrderRecord, now: int, catalogue: map<int, MenuItem>, k: int) returns (r: Result<OrderRecord>)
    ensures var snap := SnapshotItems(draft.orderItems, catalogue, k);
      && (snap.Err? ==> r == Err(snap.error))
      && (snap.Ok? ==> r == Ok(draft.(id := Some(k), orderDate := now, status := Some(Pending), orderItems := snap.value,
                                     totalAmount := Some(OrderTotal(snap.value, draft.deliveryFee)))))
    ensures r.Ok? ==> TotalIsConsistent(r.value) && LinesFit(r.value.orderItems, k, catalogue)
  {
    var e := new OrderEntity.Load(draft.(id := Some(k), orderDate := now, status := Some(Pending)));
    var loop := SnapshotLinesInPlace(e, catalogue, k);
    if loop.Err? {
      return Err(loop.error);
    }
    e.CalculateTotals();
    r := Ok(e.Record());
    SnapshotLinesValid(draft.orderItems, catalogue, k);
  }

  /** The edit updateOrder makes to a loaded order: address, instructions and
      fee are overwritten, the lines are cleared and replaced by the supplied
      ones snapshotted from the catalogue, and the total is recomputed. */
  method EditOrder(row: OrderRecord, details: OrderRecord, catalogue: map<int, MenuItem>, orderId: int)
    returns (r: Result<OrderRecord>)
    requires row.id == Some(orderId)
    ensures var snap := SnapshotItems(details.orderItems, catalogue, orderId);
      && (snap.Err? ==> r == Err(snap.error))
      && (snap.Ok? ==> r == Ok(row.(
            deliveryAddress := details.deliveryAddress, specialInstructions := details.specialInstructions,
            deliveryFee := details.deliveryFee, orderItems := snap.value,
            totalAmount := Some(OrderTotal(snap.value, details.deliveryFee)))))
    ensures r.Ok? ==> TotalIsConsistent(r.value) && LinesFit(r.value.orderItems, orderId, catalogue)
  {
    var e := new OrderEntity.Load(row);
    e.deliveryAddress := details.deliveryAddress;
    e.specialInstructions := details.specialInstructions;
    e.SetDeliveryFee(details.deliveryFee);
    e.orderItems := [];
    var loop := AppendSnapshotLines(e, details.orderItems, catalogue, orderId);
    if loop.Err? {
      return Err(loop.error);
    }
    ghost var lines := SnapshotItems(details.orderItems, catalogue, orderId).value;
    assert [] + lines == lines;
    e.CalculateTotals();
    r := Ok(e.Record());
    SnapshotLinesValid(details.orderItems, catalogue, orderId);
  }

  // ---------------------------------------------------------------------------
  // The service

  class OrderService {
    const db: Database

    constructor (db: Database)
      ensures this.db == db
    {
      this.db := db;
    }

    /** createOrder: checks the user and the restaurant, then stores the order
        as Pending, dated `now`, with every line snapshotted from the
        catalogue and the total computed. The first save fails when the draft
        leaves delivery address or payment status null. Any failure stores
        nothing. */
    method CreateOrder(draft: OrderRecord, now: int) returns (r: Result<OrderRecord>)
      requires db.Valid()
      modifies db
      ensures db.Valid()
      ensures ReferenceError(draft, old(db.users), old(db.restaurants)).Some? ==>
        r == Err(ReferenceError(draft, old(db.users), old(db.restaurants)).value)
      ensures ReferenceError(draft, old(db.users), old(db.restaurants)).None? && !RequiredColumnsSet(draft) ==>
        r == Err(NotNullViolation)
      ensures var k := SaveKey(old(db.orders), old(db.nextOrderId), draft.id);
        var snap := SnapshotItems(draft.orderItems, old(db.menuItems), k);
        ReferenceError(draft, old(db.users), old(db.restaurants)).None? && RequiredColumnsSet(draft) ==>
          (snap.Err? ==> r == Err(snap.error)) && (snap.Ok? ==> r.Ok?)
      ensures r.Err? ==> unchanged(db)
      ensures r.Ok? ==>
        var k := SaveKey(old(db.orders), old(db.nextOrderId), draft.id);
        var snap := SnapshotItems(draft.orderItems, old(db.menuItems), k);
        && ReferenceError(draft, old(db.users), old(db.restaurants)).None?
        && RequiredColumnsSet(draft)
        && snap.Ok?
        && r.value == draft.(id := Some(k), orderDate := now, status := Some(Pending), orderItems := snap.value,
                             totalAmount := Some(OrderTotal(snap.value, draft.deliveryFee)))
        && db.orders == old(db.orders)[k := r.value]
        && db.nextOrderId == NextAfterSave(old(db.nextOrderId), k)
        && db.menuItems == old(db.menuItems) && db.nextMenuItemId == old(db.nextMenuItemId)
        && db.users == old(db.users) && db.restaurants == old(db.restaurants)
      ensures r.Ok? ==> r.value.status == Some(Pending) && r.value.orderDate == now && TotalIsConsistent(r.value)
    {
      var refError := ReferenceError(draft, db.users, db.restaurants);
      if refError.Some? {
        return Err(refError.value);
      }
      if !RequiredColumnsSet(draft) {
        return Err(NotNullViolation);
      }
      var k := SaveKey(db.orders, db.nextOrderId, draft.id);
      SaveKeyFits(db.orders, db.nextOrderId, draft.id);
      var built := BuildOrder(draft, now, db.menuItems, k);
      if built.Err? {
        return Err(built.error);
      }
      SaveOrderPreservesTable(db.orders, db.nextOrderId, db.users, db.restaurants, db.menuItems, k, built.value);
      db.orders := db.orders[k := built.value];
      db.nextOrderId := NextAfterSave(db.nextOrderId, k);
      r := Ok(built.value);
    }

    /** updateOrder as intended: overwrites address, instructions and fee,
        replaces the lines wholesale with the supplied ones snapshotted from
        the catalogue, and recomputes the total; the save fails when the new
        delivery address is null. Any failure stores nothing. */
    method UpdateOrder(orderId: int, details: OrderRecord) returns (r: Result<Option<OrderRecord>>)
      requires db.Valid()
      modifies db
      ensures db.Valid()
      ensures orderId !in old(db.orders) ==> r == Ok(None) && unchanged(db)
      ensures orderId in old(db.orders) && SnapshotItems(details.orderItems, old(db.menuItems), orderId).Err? ==>
        r == Err(SnapshotItems(details.orderItems, old(db.menuItems), orderId).error) && unchanged(db)
      ensures orderId in old(db.orders) && SnapshotItems(details.orderItems, old(db.menuItems), orderId).Ok?
              && details.deliveryAddress.None? ==>
        r == Err(NotNullViolation) && unchanged(db)
      ensures orderId in old(db.orders) && SnapshotItems(details.orderItems, old(db.menuItems), orderId).Ok?
              && details.deliveryAddress.Some? ==>
        var lines := SnapshotItems(details.orderItems, old(db.menuItems), orderId).value;
        var updated := old(db.orders[orderId]).(
          deliveryAddress := details.deliveryAddress, specialInstructions := details.specialInstructions,
          deliveryFee := details.deliveryFee, orderItems := lines,
          totalAmount := Some(OrderTotal(lines, details.deliveryFee)));
        && r == Ok(Some(updated))
        && db.orders == old(db.orders)[orderId := updated]
        && db.nextOrderId == old(db.nextOrderId)
        && db.menuItems == old(db.menuItems) && db.nextMenuItemId == old(db.nextMenuItemId)
        && db.users == old(db.users) && db.restaurants == old(db.restaurants)
    {
      if orderId !in db.orders {
        return Ok(None);
      }
      var row := db.orders[orderId];
      var edited := EditOrder(row, details, db.menuItems, orderId);
      if edited.Err? {
        return Err(edited.error);
      }
      if !RequiredColumnsSet(edited.value) {
        return Err(NotNullViolation);
      }
      SaveOrderPreservesTable(db.orders, db.nextOrderId, db.users, db.restaurants, db.menuItems, orderId, edited.value);
      db.orders := db.orders[orderId := edited.value];
      r := Ok(Some(edited.value));
    }

    /** updateOrder as written: it clears the read-only view that getOrderItems
        returns, which always throws, so the transaction rolls back and no
        existing order can ever be updated. */
    method UpdateOrderAsWritten(orderId: int, details: OrderRecord) returns (r: Result<Option<OrderRecord>>)
      requires db.Valid()
      modifies db
      ensures orderId !in old(db.orders) ==> r == Ok(None)
      ensures orderId in old(db.orders) ==> r == Err(UnsupportedOperation)
      ensures unchanged(db)
    {
      if orderId !in db.orders {
        return Ok(None);
      }
      var e := new OrderEntity.Load(db.orders[orderId]);
      e.deliveryAddress := details.deliveryAddress;
      e.specialInstructions := details.specialInstructions;
      e.SetDeliveryFee(details.deliveryFee);
      var cleared := ClearView(e.OrderItemsView());
      if cleared.Err? {
        return Err(cleared.error);
      }
      assert false;
    }

    /** deleteOrder: removes the order, and with it its lines, or fails. */
    method DeleteOrder(orderId: int) returns (r: Result<()>)
      requires db.Valid()
      modifies db
      ensures db.Valid()
      ensures orderId !in old(db.orders) ==> r == Err(OrderNotFound(orderId)) && unchanged(db)
      ensures orderId in old(db.orders) ==>
        && r == Ok(())
        && db.orders == old(db.orders) - {orderId}
        && db.nextOrderId == old(db.nextOrderId)
        && db.menuItems == old(db.menuItems) && db.nextMenuItemId == old(db.nextMenuItemId)
        && db.users == old(db.users) && db.restaurants == old(db.restaurants)
    {
      if orderId !in db.orders {
        return Err(OrderNotFound(orderId));
      }
      db.orders := db.orders - {orderId};
      r := Ok(());
    }

    /** updateOrderStatus: empty for an unknown order, the guard's failure for
        a terminal order asked to change, and otherwise the status set (and,
        on Delivered, the delivery time stamped `now`). */
    method UpdateOrderStatus(orderId: int, newStatus: OrderStatus, now: int) returns (r: Result<Option<OrderRecord>>)
      requires db.Valid()
      modifies db
      ensures db.Valid()
      ensures orderId !in old(db.orders) ==> r == Ok(None) && unchanged(db)
      ensures orderId in old(db.orders) && StatusGuard(old(db.orders[orderId]).status, newStatus).Some? ==>
        r == Err(StatusGuard(old(db.orders[orderId]).status, newStatus).value) && unchanged(db)
      ensures orderId in old(db.orders) && StatusGuard(old(db.orders[orderId]).status, newStatus).None? ==>
        var o := old(db.orders[orderId]);
        var updated := o.(status := Some(newStatus),
                          actualDeliveryTime := if newStatus == Delivered then Some(now) else o.actualDeliveryTime);
        && r == Ok(Some(updated))
        && db.orders == old(db.orders)[orderId := updated]
        && db.nextOrderId == old(db.nextOrderId)
        && db.menuItems == old(db.menuItems) && db.nextMenuItemId == old(db.nextMenuItemId)
        && db.users == old(db.users) && db.restaurants == old(db.restaurants)
    {
      if orderId !in db.orders {
        return Ok(None);
      }
      var guard := StatusGuard(db.orders[orderId].status, newStatus);
      if guard.Some? {
        return Err(guard.value);
      }
      var e := new OrderEntity.Load(db.orders[orderId]);
      e.UpdateStatus(newStatus, now);
      db.orders := db.orders[orderId := e.Record()];
      r := Ok(Some(e.Record()));
    }

    /** cancelOrder: false, changing nothing, for an unknown or a delivered
        order; otherwise the order is cancelled and the answer is true. */
    method CancelOrder(orderId: int, now: int) returns (cancelled: bool)
      requires db.Valid()
      modifies db
      ensures db.Valid()
      ensures cancelled <==> orderId in old(db.orders) && old(db.orders[orderId]).status != Some(Delivered)
      ensures !cancelled ==> unchanged(db)
      ensures cancelled ==>
        && db.orders == old(db.orders)[orderId := old(db.orders[orderId]).(status := Some(Cancelled))]
        && db.nextOrderId == old(db.nextOrderId)
        && db.menuItems == old(db.menuItems) && db.nextMenuItemId == old(db.nextMenuItemId)
        && db.users == old(db.users) && db.restaurants == old(db.restaurants)
    {
      if orderId !in db.orders {
        return false;
      }
      if db.orders[orderId].status == Some(Delivered) {
        return false;
      }
      var e := new OrderEntity.Load(db.orders[orderId]);
      e.UpdateStatus(Cancelled, now);
      db.orders := db.orders[orderId := e.Record()];
      cancelled := true;
    }

    /** getOrderById. */
    function GetOrderById(orderId: int): (r: Option<OrderRecord>)
      reads db
      ensures r.Some? <==> orderId in db.orders
      ensures r.Some? ==> r.value == db.orders[orderId]
    {
      if orderId in db.orders then Some(db.orders[orderId]) else None
    }

    /** getOrderDetails: the order, or the failure naming the unknown id. */
    function GetOrderDetails(orderId: int): (r: Result<OrderRecord>)
      reads db
      ensures r.Ok? <==> orderId in db.orders
      ensures r.Ok? ==> r.value == db.orders[orderId]
      ensures r.Err? ==> r.error == OrderNotFound(orderId)
    {
      if orderId in db.orders then Ok(db.orders[orderId]) else Err(OrderNotFound(orderId))
    }

    /** getOrdersByStatus: exactly the stored orders in that status. */
    function GetOrdersByStatus(s: OrderStatus): (r: seq<OrderRecord>)
      reads db
      requires db.Valid()
      ensures forall o :: o in r <==> (exists k :: k in db.orders && db.orders[k] == o) && o.status == Some(s)
    {
      OrderRowsAreStored(db);
      OrderRepository.FindByStatus(db.OrderRows(), s)
    }

    /** getOrdersByUser: one page of the user's orders passing the filters;
        `sortBy` and `sortOrder` are accepted and never used. */
    function GetOrdersByUser(userId: int, page: int, size: int, sortBy: string, sortOrder: string,
                             status: Option<OrderStatus>, fromDate: Option<int>, toDate: Option<int>): (r: Result<Page<OrderRecord>>)
      reads db
      requires db.Valid()
      ensures r == PageOf(OrderRepository.FindUserOrdersWithFilters(db.OrderRows(), userId, status, fromDate, toDate), page, size)
      ensures r.Ok? <==> 0 <= page && 1 <= size
      ensures page < 0 ==> r == Err(PageIndexNegative)
      ensures 0 <= page && size < 1 ==> r == Err(PageSizeTooSmall)
      ensures r.Ok? ==> |r.value.content| <= size && forall o :: o in r.value.content ==>
        && (exists k :: k in db.orders && db.orders[k] == o)
        && o.userId == Some(userId)
        && OrderRepository.MatchesOptionalFilters(o, status, fromDate, toDate)
    {
      OrderRowsAreStored(db);
      var found := OrderRepository.FindUserOrdersWithFilters(db.OrderRows(), userId, status, fromDate, toDate);
      var r := PageOf(found, page, size);
      assert r.Ok? ==> forall o :: o in r.value.content ==> o in found by {
        if r.Ok? {
          forall o | o in r.value.content ensures o in found {
            var i :| 0 <= i < |r.value.content| && r.value.content[i] == o;
            assert found[page * size + i] == o;
          }
        }
      }
      r
    }

    /** getOrdersByRestaurant: one page of the restaurant's orders passing the
        filters; `sortBy` and `sortOrder` are accepted and never used. */
    function GetOrdersByRestaurant(restaurantId: int, page: int, size: int, sortBy: string, sortOrder: string,
                                   status: Option<OrderStatus>, fromDate: Option<int>, toDate: Option<int>): (r: Result<Page<OrderRecord>>)
      reads db
      requires db.Valid()
      ensures r == PageOf(OrderRepository.FindRestaurantOrdersWithFilters(db.OrderRows(), restaurantId, status, fromDate, toDate), page, size)
      ensures r.Ok? <==> 0 <= page && 1 <= size
      ensures page < 0 ==> r == Err(PageIndexNegative)
      ensures 0 <= page && size < 1 ==> r == Err(PageSizeTooSmall)
      ensures r.Ok? ==> |r.value.content| <= size && forall o :: o in r.value.content ==>
        && (exists k :: k in db.orders && db.orders[k] == o)
        && o.restaurantId == Some(restaurantId)
        && OrderRepository.MatchesOptionalFilters(o, status, fromDate, toDate)
    {
      OrderRowsAreStored(db);
      var found := OrderRepository.FindRestaurantOrdersWithFilters(db.OrderRows(), restaurantId, status, fromDate, toDate);
      var r := PageOf(found, page, size);
      assert r.Ok? ==> forall o :: o in r.value.content ==> o in found by {
        if r.Ok? {
          forall o | o in r.value.content ensures o in found {
            var i :| 0 <= i < |r.value.content| && r.value.content[i] == o;
            assert found[page * size + i] == o;
          }
        }
      }
      r
    }

    /** calculateRestaurantRevenue: null exactly when no qualifying order has
        a line, and otherwise (read as 0 when null) the qualifying orders'
        totals less their delivery fees. */
    function CalculateRestaurantRevenue(restaurantId: int, fromDate: Option<int>, toDate: Option<int>): (r: Option<int>)
      reads db
      requires db.Valid()
      ensures r.None? <==>
        forall k :: k in db.orders && OrderRepository.CountsForRevenue(db.orders[k], restaurantId, fromDate, toDate) ==>
                      db.orders[k].orderItems == []
      ensures OrderRepository.RevenueOrZero(r) == OrderRepository.NetTotals(db.OrderRows(), restaurantId, fromDate, toDate)
    {
      OrderRowsAreStored(db);
      OrderRepository.RevenueFromOrderTotals(db.OrderRows(), restaurantId, fromDate, toDate);
      OrderRepository.CalculateRestaurantRevenue(db.OrderRows(), restaurantId, fromDate, toDate)
    }
  }

  /** The order of a listing does not depend on the sort arguments, which the
      service never reads. */
  lemma SortArgumentsIgnored(s: OrderService, id: int, page: int, size: int, sortBy1: string, sortOrder1: string,
                             sortBy2: string, sortOrder2: string, status: Option<OrderStatus>, fromDate: Option<int>, toDate: Option<int>)
    requires s.db.Valid()
    ensures s.GetOrdersByUser(id, page, size, sortBy1, sortOrder1, status, fromDate, toDate)
         == s.GetOrdersByUser(id, page, size, sortBy2, sortOrder2, status, fromDate, toDate)
    ensures s.GetOrdersByRestaurant(id, page, size, sortBy1, sortOrder1, status, fromDate, toDate)
         == s.GetOrdersByRestaurant(id, page, size, sortBy2, sortOrder2, status, fromDate, toDate)
  {
  }
}
