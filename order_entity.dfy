/** The order aggregate (entity OrderEntity): an order, its lines, the total
    it keeps, its status and the views of its lines. */
module Orders {
  import opened Common
  import opened MenuItems
  import opened OrderItems

  /** The statuses an order passes through. */
  datatype OrderStatus = Pending | Confirmed | Preparing | OutForDelivery | Delivered | Cancelled

  /** Delivered and Cancelled end an order's life. */
  predicate IsTerminal(s: OrderStatus)
  {
    s == Delivered || s == Cancelled
  }

  /** The stored state of an order, one field per column; users and
      restaurants are referenced by id, and the lines are owned by the order. */
  datatype OrderRecord = OrderRecord(
    id: Option<int>,
    userId: Option<int>,
    restaurantId: Option<int>,
    orderItems: seq<OrderItem>,
    orderDate: int,
    estimatedDeliveryTime: Option<int>,
    actualDeliveryTime: Option<int>,
    status: Option<OrderStatus>,
    totalAmount: Option<int>,
    deliveryAddress: Option<string>,
    paymentStatus: Option<string>,
    specialInstructions: Option<string>,
    deliveryFee: Option<int>)

  // ---------------------------------------------------------------------------
  // The total

  /** The sum of the lines' total prices (the stream sum of calculateTotals). */
  function ItemsTotal(items: seq<OrderItem>): int
    decreases |items|
  {
    if items == [] then 0 else TotalPrice(items[0]) + ItemsTotal(items[1..])
  }

  /** The delivery fee, counting an absent one as 0. */
  function FeeOrZero(fee: Option<int>): int
  {
    if fee.Some? then fee.value else 0
  }

  /** The amount an order with these lines and this fee must show as its total. */
  function OrderTotal(items: seq<OrderItem>, fee: Option<int>): int
  {
    ItemsTotal(items) + FeeOrZero(fee)
  }

  /** The aggregate's invariant: the stored total is the lines' sum plus the fee. */
  predicate TotalIsConsistent(r: OrderRecord)
  {
    r.totalAmount == Some(OrderTotal(r.orderItems, r.deliveryFee))
  }

  /** Appending a line adds exactly its total price. */
  lemma {:induction false} ItemsTotalAppend(items: seq<OrderItem>, item: OrderItem)
    ensures ItemsTotal(items + [item]) == ItemsTotal(items) + TotalPrice(item)
    decreases |items|
  {
    if items == [] {
      assert [] + [item] == [item];
    } else {
      assert (items + [item])[1..] == items[1..] + [item];
      ItemsTotalAppend(items[1..], item);
    }
  }

  /** The total of two runs of lines is the sum of their totals. */
  lemma {:induction false} ItemsTotalConcat(a: seq<OrderItem>, b: seq<OrderItem>)
    ensures ItemsTotal(a + b) == ItemsTotal(a) + ItemsTotal(b)
    decreases |a|
  {
    if a == [] {
      assert a + b == b;
    } else {
      assert (a + b)[1..] == a[1..] + b;
      ItemsTotalConcat(a[1..], b);
    }
  }

  /** Removing a line that is present subtracts exactly its total price. */
  lemma {:induction false} ItemsTotalRemoveFirst(items: seq<OrderItem>, item: OrderItem)
    requires item in items
    ensures ItemsTotal(RemoveFirst(items, item)) == ItemsTotal(items) - TotalPrice(item)
    decreases |items|
  {
    if items[0] != item {
      ItemsTotalRemoveFirst(items[1..], item);
      assert RemoveFirst(items, item) == [items[0]] + RemoveFirst(items[1..], item);
      assert ([items[0]] + RemoveFirst(items[1..], item))[1..] == RemoveFirst(items[1..], item);
    }
  }

  // ---------------------------------------------------------------------------
  // Views of the lines

  /** getItemNames: each line's getItemName against the catalogue, in line order. */
  function ItemNames(items: seq<OrderItem>, catalogue: map<int, MenuItem>): (r: seq<Option<string>>)
    ensures |r| == |items|
    ensures forall i :: 0 <= i < |items| ==> r[i] == GetItemName(items[i], catalogue)
    decreases |items|
  {
    if items == [] then []
    else
      var n := |items| - 1;
      var init := ItemNames(items[..n], catalogue);
      assert forall i :: 0 <= i < n ==> items[..n][i] == items[i];
      init + [GetItemName(items[n], catalogue)]
  }

  /** The exact, unbounded sum of the quantities of the lines named `name`. */
  function QuantityOf(items: seq<OrderItem>, catalogue: map<int, MenuItem>, name: Option<string>): int
    decreases |items|
  {
    if items == [] then 0
    else
      var last := items[|items| - 1];
      QuantityOf(items[..|items| - 1], catalogue, name) + (if GetItemName(last, catalogue) == name then last.quantity else 0)
  }

  /** One step of Collectors.toMap with the merge (q1, q2) -> q1 + q2: a new
      name gets the quantity, a known one adds it in `int` arithmetic. */
  function MergeQuantity(m: map<Option<string>, Int32>, name: Option<string>, q: Int32): map<Option<string>, Int32>
  {
    if name in m then m[name := AddInt32(m[name], q)] else m[name := q]
  }

  /** getItemQuantities: the stream of lines collected into a map from item
      name to quantity, merging duplicates by addition, in line order. */
  function ItemQuantities(items: seq<OrderItem>, catalogue: map<int, MenuItem>): map<Option<string>, Int32>
    decreases |items|
  {
    if items == [] then map[]
    else
      var last := items[|items| - 1];
      MergeQuantity(ItemQuantities(items[..|items| - 1], catalogue), GetItemName(last, catalogue), last.quantity)
  }

  /** The keys of getItemQuantities are exactly the names of the lines. */
  lemma {:induction false} ItemQuantitiesKeys(items: seq<OrderItem>, catalogue: map<int, MenuItem>)
    ensures forall name :: name in ItemQuantities(items, catalogue) <==> name in ItemNames(items, catalogue)
    decreases |items|
  {
    if items != [] {
      var n := |items| - 1;
      ItemQuantitiesKeys(items[..n], catalogue);
    }
  }

  /** Each value of getItemQuantities is the sum of that name's quantities,
      reduced to an `int` as Java's addition does. */
  lemma {:induction false} ItemQuantitiesValues(items: seq<OrderItem>, catalogue: map<int, MenuItem>, name: Option<string>)
    requires name in ItemQuantities(items, catalogue)
    ensures ItemQuantities(items, catalogue)[name] == Wrap32(QuantityOf(items, catalogue, name))
    decreases |items|
  {
    var n := |items| - 1;
    var init, last := items[..n], items[n];
    var m := ItemQuantities(init, catalogue);
    if name in m {
      ItemQuantitiesValues(init, catalogue, name);
      WrapOfSum(QuantityOf(init, catalogue, name), if GetItemName(last, catalogue) == name then last.quantity else 0);
    } else {
      ItemQuantitiesKeys(init, catalogue);
      QuantityOfAbsent(init, catalogue, name);
    }
  }

  /** A name no line carries has quantity 0. */
  lemma {:induction false} QuantityOfAbsent(items: seq<OrderItem>, catalogue: map<int, MenuItem>, name: Option<string>)
    requires name !in ItemNames(items, catalogue)
    ensures QuantityOf(items, catalogue, name) == 0
    decreases |items|
  {
    if items != [] {
      QuantityOfAbsent(items[..|items| - 1], catalogue, name);
    }
  }

  /** Reducing a sum to an `int` step by step is the same as reducing at the end. */
  lemma WrapOfSum(a: int, b: Int32)
    ensures AddInt32(Wrap32(a), b) == Wrap32(a + b)
  {
    var w := Wrap32(a);
    ModSum(AddInt32(w, b) - (w + b), w - a);
    Wrap32Unique(AddInt32(w, b), Wrap32(a + b), a + b);
  }

  lemma ModSum(x: int, y: int)
    requires x % TWO_32 == 0 && y % TWO_32 == 0
    ensures (x + y) % TWO_32 == 0
  {
    var p, q := x / TWO_32, y / TWO_32;
    assert x == p * TWO_32 && y == q * TWO_32;
    assert x + y == (p + q) * TWO_32;
  }

  lemma MultipleAtLeast(k: int)
    ensures k >= 1 ==> k * TWO_32 >= TWO_32
  {
  }

  /** Two `int`s congruent to the same integer are equal. */
  lemma Wrap32Unique(r1: Int32, r2: Int32, x: int)
    requires (r1 - x) % TWO_32 == 0 && (r2 - x) % TWO_32 == 0
    ensures r1 == r2
  {
    var p, q := (r1 - x) / TWO_32, (r2 - x) / TWO_32;
    assert r1 - x == p * TWO_32 && r2 - x == q * TWO_32;
    assert r1 - r2 == (p - q) * TWO_32;
    MultipleAtLeast(p - q);
    MultipleAtLeast(q - p);
  }

  // ---------------------------------------------------------------------------
  // The entity

  /** An order as a live object whose methods update it in place. */
  class OrderEntity {
    var id: Option<int>
    var userId: Option<int>
    var restaurantId: Option<int>
    var orderItems: seq<OrderItem>
    var orderDate: int
    var estimatedDeliveryTime: Option<int>
    var actualDeliveryTime: Option<int>
    var status: Option<OrderStatus>
    var totalAmount: Option<int>
    var deliveryAddress: Option<string>
    var paymentStatus: Option<string>
    var specialInstructions: Option<string>
    var deliveryFee: Option<int>

    /** The object's current state as a stored row. */
    function Record(): OrderRecord
      reads this
    {
      OrderRecord(id, userId, restaurantId, orderItems, orderDate, estimatedDeliveryTime,
                  actualDeliveryTime, status, totalAmount, deliveryAddress, paymentStatus,
                  specialInstructions, deliveryFee)
    }

    /** getOrderItems: the lines, behind a read-only view. */
    function OrderItemsView(): (v: UnmodifiableList<OrderItem>)
      reads this
      ensures v.elements == orderItems
    {
      UnmodifiableList(orderItems)
    }

    /** OrderEntity(): stamped with the current time, everything else unset. */
    constructor (now: int)
      ensures Record() == OrderRecord(None, None, None, [], now, None, None, None, None, None, None, None, None)
    {
      id, userId, restaurantId, orderItems := None, None, None, [];
      orderDate, estimatedDeliveryTime, actualDeliveryTime := now, None, None;
      status, totalAmount, deliveryAddress := None, None, None;
      paymentStatus, specialInstructions, deliveryFee := None, None, None;
    }

    /** OrderEntity(user, restaurant, deliveryAddress): a pending order of that
        user at that restaurant, stamped with the current time. */
    constructor ForCustomer(user: Option<int>, restaurant: Option<int>, address: Option<string>, now: int)
      ensures Record() == OrderRecord(None, user, restaurant, [], now, None, None, Some(Pending), None,
                                      address, None, None, None)
    {
      id, userId, restaurantId, orderItems := None, user, restaurant, [];
      orderDate, estimatedDeliveryTime, actualDeliveryTime := now, None, None;
      status, totalAmount, deliveryAddress := Some(Pending), None, address;
      paymentStatus, specialInstructions, deliveryFee := None, None, None;
    }

    /** The persistence layer materialising a stored row as a managed object. */
    constructor Load(r: OrderRecord)
      ensures Record() == r
    {
      id, userId, restaurantId, orderItems := r.id, r.userId, r.restaurantId, r.orderItems;
      orderDate, estimatedDeliveryTime, actualDeliveryTime := r.orderDate, r.estimatedDeliveryTime, r.actualDeliveryTime;
      status, totalAmount, deliveryAddress := r.status, r.totalAmount, r.deliveryAddress;
      paymentStatus, specialInstructions, deliveryFee := r.paymentStatus, r.specialInstructions, r.deliveryFee;
    }

    /** calculateTotals: re-establishes the total invariant and changes nothing else. */
    method CalculateTotals()
      modifies this
      ensures Record() == old(Record()).(totalAmount := Some(OrderTotal(orderItems, deliveryFee)))
      ensures TotalIsConsistent(Record())
    {
      totalAmount := Some(ItemsTotal(orderItems) + FeeOrZero(deliveryFee));
    }

    /** addOrderItem: appends the line, pointed at this order, and the total
        grows by exactly the line's total price. */
    method AddOrderItem(item: OrderItem)
      modifies this
      ensures Record() == old(Record()).(orderItems := old(orderItems) + [item.(order := id)],
                                         totalAmount := Some(OrderTotal(orderItems, deliveryFee)))
      ensures TotalIsConsistent(Record())
      ensures OrderTotal(orderItems, deliveryFee) == OrderTotal(old(orderItems), deliveryFee) + TotalPrice(item)
    {
      ItemsTotalAppend(orderItems, item.(order := id));
      orderItems := orderItems + [item.(order := id)];
      CalculateTotals();
    }

    /** removeOrderItem: drops the first line equal to `item`, returns the line
        with its back-reference cleared, and keeps the total invariant. */
    method RemoveOrderItem(item: OrderItem) returns (detached: OrderItem)
      modifies this
      ensures detached == item.(order := None)
      ensures Record() == old(Record()).(orderItems := RemoveFirst(old(orderItems), item),
                                         totalAmount := Some(OrderTotal(orderItems, deliveryFee)))
      ensures TotalIsConsistent(Record())
      ensures item in old(orderItems) ==>
        OrderTotal(orderItems, deliveryFee) == OrderTotal(old(orderItems), deliveryFee) - TotalPrice(item)
    {
      if item in orderItems {
        ItemsTotalRemoveFirst(orderItems, item);
      }
      orderItems := RemoveFirst(orderItems, item);
      detached := item.(order := None);
      CalculateTotals();
    }

    /** updateStatus: sets the status; entering Delivered (again or for the
        first time) stamps the delivery time with `now`. */
    method UpdateStatus(newStatus: OrderStatus, now: int)
      modifies this
      ensures Record() == old(Record()).(
        status := Some(newStatus),
        actualDeliveryTime := if newStatus == Delivered then Some(now) else old(actualDeliveryTime))
    {
      status := Some(newStatus);
      if newStatus == Delivered {
        actualDeliveryTime := Some(now);
      }
    }

    /** setDeliveryFee: replaces the fee and re-establishes the total invariant. */
    method SetDeliveryFee(fee: Option<int>)
      modifies this
      ensures Record() == old(Record()).(deliveryFee := fee, totalAmount := Some(OrderTotal(orderItems, fee)))
      ensures TotalIsConsistent(Record())
    {
      deliveryFee := fee;
      CalculateTotals();
    }
  }
}
