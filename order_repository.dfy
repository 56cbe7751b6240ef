/** The order table's queries (OrderRepository): conjunctions of optional
    filters and the revenue sum, as functions of the table's rows in key order. */
module OrderRepository {
  import opened Common
  import opened OrderItems
  import opened Orders

  /** `d` lies in the window whose absent bounds are open and whose present
      bounds are inclusive. */
  predicate DateWithin(d: int, fromDate: Option<int>, toDate: Option<int>)
  {
    (fromDate.None? || fromDate.value <= d) && (toDate.None? || d <= toDate.value)
  }

  /** The optional part of both filtered queries: status equal when given,
      order date inside the window. */
  predicate MatchesOptionalFilters(o: OrderRecord, status: Option<OrderStatus>, fromDate: Option<int>, toDate: Option<int>)
  {
    (status.None? || o.status == status) && DateWithin(o.orderDate, fromDate, toDate)
  }

  /** findByRestaurantId: every order of the restaurant. */
  function FindByRestaurantId(rows: seq<OrderRecord>, restaurantId: int): (r: seq<OrderRecord>)
    ensures forall o :: o in r <==> o in rows && o.restaurantId == Some(restaurantId)
  {
    Filter(rows, (o: OrderRecord) => o.restaurantId == Some(restaurantId))
  }

  /** findByUserId: every order of the user. */
  function FindByUserId(rows: seq<OrderRecord>, userId: int): (r: seq<OrderRecord>)
    ensures forall o :: o in r <==> o in rows && o.userId == Some(userId)
  {
    Filter(rows, (o: OrderRecord) => o.userId == Some(userId))
  }

  /** findRestaurantOrdersWithFilters: the restaurant's orders that pass every
      filter supplied; an absent filter imposes nothing. */
  function FindRestaurantOrdersWithFilters(rows: seq<OrderRecord>, restaurantId: int, status: Option<OrderStatus>,
                                           fromDate: Option<int>, toDate: Option<int>): (r: seq<OrderRecord>)
    ensures |r| <= |rows|
    ensures forall o :: o in r <==>
      && o in rows
      && o.restaurantId == Some(restaurantId)
      && (status.Some? ==> o.status == Some(status.value))
      && (fromDate.Some? ==> o.orderDate >= fromDate.value)
      && (toDate.Some? ==> o.orderDate <= toDate.value)
  {
    Filter(rows, (o: OrderRecord) => o.restaurantId == Some(restaurantId) && MatchesOptionalFilters(o, status, fromDate, toDate))
  }

  /** findUserOrdersWithFilters: the same conjunction keyed on the user. */
  function FindUserOrdersWithFilters(rows: seq<OrderRecord>, userId: int, status: Option<OrderStatus>,
                                     fromDate: Option<int>, toDate: Option<int>): (r: seq<OrderRecord>)
    ensures |r| <= |rows|
    ensures forall o :: o in r <==>
      && o in rows
      && o.userId == Some(userId)
      && (status.Some? ==> o.status == Some(status.value))
      && (fromDate.Some? ==> o.orderDate >= fromDate.value)
      && (toDate.Some? ==> o.orderDate <= toDate.value)
  {
    Filter(rows, (o: OrderRecord) => o.userId == Some(userId) && MatchesOptionalFilters(o, status, fromDate, toDate))
  }

  /** With no optional filter, the filtered restaurant query is the plain one,
      row for row and in the same order. */
  lemma NoFiltersIsAllRestaurantOrders(rows: seq<OrderRecord>, restaurantId: int)
    ensures FindRestaurantOrdersWithFilters(rows, restaurantId, None, None, None) == FindByRestaurantId(rows, restaurantId)
  {
    FilterSameCondition(rows,
      (o: OrderRecord) => o.restaurantId == Some(restaurantId) && MatchesOptionalFilters(o, None, None, None),
      (o: OrderRecord) => o.restaurantId == Some(restaurantId));
  }

  /** With no optional filter, the filtered user query is the plain one. */
  lemma NoFiltersIsAllUserOrders(rows: seq<OrderRecord>, userId: int)
    ensures FindUserOrdersWithFilters(rows, userId, None, None, None) == FindByUserId(rows, userId)
  {
    FilterSameCondition(rows,
      (o: OrderRecord) => o.userId == Some(userId) && MatchesOptionalFilters(o, None, None, None),
      (o: OrderRecord) => o.userId == Some(userId));
  }

  /** findByStatus: exactly the orders in status `s`. */
  function FindByStatus(rows: seq<OrderRecord>, s: OrderStatus): (r: seq<OrderRecord>)
    ensures forall o :: o in r <==> o in rows && o.status == Some(s)
  {
    Filter(rows, (o: OrderRecord) => o.status == Some(s))
  }

  // ---------------------------------------------------------------------------
  // calculateRestaurantRevenue

  /** The orders whose lines the revenue query joins: delivered orders of the
      restaurant dated inside the window. */
  predicate CountsForRevenue(o: OrderRecord, restaurantId: int, fromDate: Option<int>, toDate: Option<int>)
  {
    o.restaurantId == Some(restaurantId) && o.status == Some(Delivered) && DateWithin(o.orderDate, fromDate, toDate)
  }

  /** The order-line rows that the revenue query's WHERE clause keeps. */
  function RevenueItems(rows: seq<OrderRecord>, restaurantId: int, fromDate: Option<int>, toDate: Option<int>): seq<OrderItem>
    decreases |rows|
  {
    if rows == [] then []
    else
      (if CountsForRevenue(rows[0], restaurantId, fromDate, toDate) then rows[0].orderItems else [])
      + RevenueItems(rows[1..], restaurantId, fromDate, toDate)
  }

  /** SUM(quantity * priceAtOrderTime) over those lines, which SQL reports as
      null when no line qualifies. */
  function CalculateRestaurantRevenue(rows: seq<OrderRecord>, restaurantId: int, fromDate: Option<int>, toDate: Option<int>): (r: Option<int>)
    ensures r.None? <==> forall o :: o in rows && CountsForRevenue(o, restaurantId, fromDate, toDate) ==> o.orderItems == []
    ensures r.Some? ==> r.value == ItemsTotal(RevenueItems(rows, restaurantId, fromDate, toDate))
  {
    RevenueItemsEmpty(rows, restaurantId, fromDate, toDate);
    var items := RevenueItems(rows, restaurantId, fromDate, toDate);
    if items == [] then None else Some(ItemsTotal(items))
  }

  /** The caller's reading of the sum: null is reported as 0. */
  function RevenueOrZero(r: Option<int>): int
  {
    if r.Some? then r.value else 0
  }

  /** No line qualifies exactly when every qualifying order has no lines. */
  lemma {:induction false} RevenueItemsEmpty(rows: seq<OrderRecord>, restaurantId: int, fromDate: Option<int>, toDate: Option<int>)
    ensures RevenueItems(rows, restaurantId, fromDate, toDate) == [] <==>
      forall o :: o in rows && CountsForRevenue(o, restaurantId, fromDate, toDate) ==> o.orderItems == []
    decreases |rows|
  {
    if rows != [] {
      RevenueItemsEmpty(rows[1..], restaurantId, fromDate, toDate);
      assert forall o :: o in rows <==> o == rows[0] || o in rows[1..];
    }
  }

  /** The qualifying lines of two runs of rows are those of each, in turn. */
  lemma {:induction false} RevenueItemsConcat(a: seq<OrderRecord>, b: seq<OrderRecord>, restaurantId: int, fromDate: Option<int>, toDate: Option<int>)
    ensures RevenueItems(a + b, restaurantId, fromDate, toDate)
         == RevenueItems(a, restaurantId, fromDate, toDate) + RevenueItems(b, restaurantId, fromDate, toDate)
    decreases |a|
  {
    if a == [] {
      assert a + b == b;
    } else {
      assert (a + b)[0] == a[0];
      assert (a + b)[1..] == a[1..] + b;
      RevenueItemsConcat(a[1..], b, restaurantId, fromDate, toDate);
    }
  }

  /** Revenue is additive over a split of the table. */
  lemma RevenueAdditive(a: seq<OrderRecord>, b: seq<OrderRecord>, restaurantId: int, fromDate: Option<int>, toDate: Option<int>)
    ensures RevenueOrZero(CalculateRestaurantRevenue(a + b, restaurantId, fromDate, toDate))
         == RevenueOrZero(CalculateRestaurantRevenue(a, restaurantId, fromDate, toDate))
          + RevenueOrZero(CalculateRestaurantRevenue(b, restaurantId, fromDate, toDate))
  {
    RevenueItemsConcat(a, b, restaurantId, fromDate, toDate);
    ItemsTotalConcat(RevenueItems(a, restaurantId, fromDate, toDate), RevenueItems(b, restaurantId, fromDate, toDate));
  }

  /** An order that is not delivered, or belongs elsewhere, or lies outside the
      window, changes nothing: inserting it anywhere leaves the revenue as it was. */
  lemma NonQualifyingOrderContributesNothing(a: seq<OrderRecord>, o: OrderRecord, b: seq<OrderRecord>,
                                             restaurantId: int, fromDate: Option<int>, toDate: Option<int>)
    requires !CountsForRevenue(o, restaurantId, fromDate, toDate)
    ensures CalculateRestaurantRevenue(a + [o] + b, restaurantId, fromDate, toDate)
         == CalculateRestaurantRevenue(a + b, restaurantId, fromDate, toDate)
  {
    RevenueItemsConcat(a + [o], b, restaurantId, fromDate, toDate);
    RevenueItemsConcat(a, [o], restaurantId, fromDate, toDate);
    RevenueItemsConcat(a, b, restaurantId, fromDate, toDate);
    assert RevenueItems([o], restaurantId, fromDate, toDate) == [] by {
      assert [o][1..] == [];
    }
    var ra := RevenueItems(a, restaurantId, fromDate, toDate);
    assert ra + [] == ra;
    assert RevenueItems(a + [o] + b, restaurantId, fromDate, toDate) == RevenueItems(a + b, restaurantId, fromDate, toDate);
  }

  /** A restaurant with no delivered order has revenue null, reported as 0. */
  lemma NoDeliveredOrdersMeansZero(rows: seq<OrderRecord>, restaurantId: int, fromDate: Option<int>, toDate: Option<int>)
    requires forall o :: o in rows && o.restaurantId == Some(restaurantId) ==> o.status != Some(Delivered)
    ensures CalculateRestaurantRevenue(rows, restaurantId, fromDate, toDate) == None
    ensures RevenueOrZero(CalculateRestaurantRevenue(rows, restaurantId, fromDate, toDate)) == 0
  {
  }

  /** An order's stored total less its delivery fee (an absent total read as 0). */
  function NetAmount(o: OrderRecord): int
  {
    (if o.totalAmount.Some? then o.totalAmount.value else 0) - FeeOrZero(o.deliveryFee)
  }

  /** The qualifying orders' totals net of their delivery fee. */
  function NetTotals(rows: seq<OrderRecord>, restaurantId: int, fromDate: Option<int>, toDate: Option<int>): int
    decreases |rows|
  {
    if rows == [] then 0
    else
      (if CountsForRevenue(rows[0], restaurantId, fromDate, toDate) then NetAmount(rows[0]) else 0)
      + NetTotals(rows[1..], restaurantId, fromDate, toDate)
  }

  /** Where every order keeps its total invariant, the revenue is the sum of
      the qualifying orders' totals less their delivery fees. */
  lemma {:induction false} RevenueFromOrderTotals(rows: seq<OrderRecord>, restaurantId: int, fromDate: Option<int>, toDate: Option<int>)
    requires forall o :: o in rows ==> TotalIsConsistent(o)
    ensures RevenueOrZero(CalculateRestaurantRevenue(rows, restaurantId, fromDate, toDate))
         == NetTotals(rows, restaurantId, fromDate, toDate)
    decreases |rows|
  {
    if rows != [] {
      assert forall o :: o in rows[1..] ==> o in rows;
      RevenueFromOrderTotals(rows[1..], restaurantId, fromDate, toDate);
      RevenueIsItemsTotal(rows[1..], restaurantId, fromDate, toDate);
      RevenueIsItemsTotal(rows, restaurantId, fromDate, toDate);
      var head := if CountsForRevenue(rows[0], restaurantId, fromDate, toDate) then rows[0].orderItems else [];
      ItemsTotalConcat(head, RevenueItems(rows[1..], restaurantId, fromDate, toDate));
      assert rows[0] in rows;
    }
  }

  /** The reported revenue is the total of the qualifying lines, null or not. */
  lemma RevenueIsItemsTotal(rows: seq<OrderRecord>, restaurantId: int, fromDate: Option<int>, toDate: Option<int>)
    ensures RevenueOrZero(CalculateRestaurantRevenue(rows, restaurantId, fromDate, toDate))
         == ItemsTotal(RevenueItems(rows, restaurantId, fromDate, toDate))
  {
  }
}
