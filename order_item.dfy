/** One line of an order (entity OrderItem): a quantity of a menu item, with
    the price and name captured when the order was placed. */
module OrderItems {
  import opened Common
  import opened MenuItems

  /** An order line. `order` is the owning order's id (the order_id column);
      `menuItem` is the id of the referenced catalogue row (the menu_item_id
      column), so what the line reads through it is that row as it is now.
      The three snapshot fields are captured by the order service. */
  datatype OrderItem = OrderItem(
    id: Option<int>,
    quantity: Int32,
    order: Option<int>,
    menuItem: Option<int>,
    priceAtOrderTime: int,
    itemNameAtOrderTime: string,
    subtotal: int)

  /** getItemName: the current name of the linked menu item in `catalogue`,
      or null when none is linked. */
  function GetItemName(item: OrderItem, catalogue: map<int, MenuItem>): (r: Option<string>)
    ensures r.Some? <==> item.menuItem.Some? && item.menuItem.value in catalogue
    ensures r.Some? ==> r.value == catalogue[item.menuItem.value].name
  {
    match item.menuItem
    case None => None
    case Some(k) => if k in catalogue then Some(catalogue[k].name) else None
  }

  /** getPrice: the linked menu item's current price times the quantity, or
      0 when no menu item is linked. */
  function GetPrice(item: OrderItem, catalogue: map<int, MenuItem>): (r: int)
    ensures item.menuItem.None? ==> r == 0
    ensures item.menuItem.Some? && item.menuItem.value in catalogue ==>
      r == catalogue[item.menuItem.value].price * item.quantity
  {
    match item.menuItem
    case None => 0
    case Some(k) => if k in catalogue then catalogue[k].price * item.quantity else 0
  }

  /** getTotalPrice: quantity times the price captured at order time; the
      amount an order's total and the revenue report are made of. */
  function TotalPrice(item: OrderItem): int
  {
    item.quantity * item.priceAtOrderTime
  }

  /** The order service's per-line step: link the line to its order and to
      catalogue row `menuItemId`, copy that row's current price and name, and
      set the subtotal from them. At that moment the live views and the
      captured fields agree. */
  function Snapshot(item: OrderItem, catalogue: map<int, MenuItem>, menuItemId: int, orderId: int): (r: OrderItem)
    requires menuItemId in catalogue
    ensures r.priceAtOrderTime == catalogue[menuItemId].price && r.itemNameAtOrderTime == catalogue[menuItemId].name
    ensures r.subtotal == r.quantity * catalogue[menuItemId].price && r.subtotal == TotalPrice(r)
    ensures r.id == item.id && r.quantity == item.quantity
    ensures r.order == Some(orderId) && r.menuItem == Some(menuItemId)
    ensures GetPrice(r, catalogue) == TotalPrice(r) && GetItemName(r, catalogue) == Some(r.itemNameAtOrderTime)
  {
    var m := catalogue[menuItemId];
    item.(order := Some(orderId), menuItem := Some(menuItemId), priceAtOrderTime := m.price,
          itemNameAtOrderTime := m.name, subtotal := item.quantity * m.price)
  }

  /** A captured line keeps its price, name and subtotal when the catalogue
      row it points to is later edited, while getPrice and getItemName, which
      read the row through the link, follow the edit. */
  lemma SnapshotSurvivesCatalogueEdit(item: OrderItem, catalogue: map<int, MenuItem>, menuItemId: int, orderId: int,
                                      edited: MenuItem)
    requires menuItemId in catalogue
    ensures var s := Snapshot(item, catalogue, menuItemId, orderId);
      var after := catalogue[menuItemId := edited];
      && TotalPrice(s) == item.quantity * catalogue[menuItemId].price
      && s.subtotal == item.quantity * catalogue[menuItemId].price
      && s.itemNameAtOrderTime == catalogue[menuItemId].name
      && GetPrice(s, after) == edited.price * item.quantity
      && GetItemName(s, after) == Some(edited.name)
  {
  }
}
