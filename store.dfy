/** The persisted state the services work on: the user and restaurant
    directories, the menu table and the order table (with the order lines each
    order owns), and the key generators of the two tables. */
module Store {
  import opened Common
  import opened MenuItems
  import opened OrderItems
  import opened Orders

  // ---------------------------------------------------------------------------
  // Table invariants, on values

  /** Every menu row is stored under a generated key, and carries it as its id. */
  predicate MenuKeysValid(table: map<int, MenuItem>, next: int)
  {
    forall k :: k in table ==> 1 <= k < next && table[k].id == Some(k)
  }

  /** The catalogue rule: no two menu rows of one restaurant share a name. */
  predicate UniqueNames(table: map<int, MenuItem>)
  {
    forall j, k :: j in table && k in table && j != k && table[j].restaurant == table[k].restaurant
      ==> table[j].name != table[k].name
  }

  /** Every menu row belongs to a registered restaurant. */
  predicate MenuRestaurantsKnown(table: map<int, MenuItem>, restaurants: set<int>)
  {
    forall k :: k in table ==> table[k].restaurant.Some? && table[k].restaurant.value in restaurants
  }

  /** An order line as stored under order `k`: linked to it, with its subtotal
      equal to quantity times the captured price. */
  predicate LineValid(item: OrderItem, k: int)
  {
    item.order == Some(k) && item.subtotal == TotalPrice(item)
  }

  /** The order columns declared NOT NULL that no service step fills in:
      delivery_address and payment_status. */
  predicate RequiredColumnsSet(o: OrderRecord)
  {
    o.deliveryAddress.Some? && o.paymentStatus.Some?
  }

  /** An order row as stored under key `k`. */
  predicate OrderRowValid(o: OrderRecord, k: int, users: set<int>, restaurants: set<int>)
  {
    && o.id == Some(k)
    && RequiredColumnsSet(o)
    && o.userId.Some? && o.userId.value in users
    && o.restaurantId.Some? && o.restaurantId.value in restaurants
    && o.status.Some?
    && TotalIsConsistent(o)
    && forall it :: it in o.orderItems ==> LineValid(it, k)
  }

  /** Every order row is stored under a generated key and is valid there. */
  predicate OrderTableValid(table: map<int, OrderRecord>, next: int, users: set<int>, restaurants: set<int>)
  {
    forall k :: k in table ==> 1 <= k < next && OrderRowValid(table[k], k, users, restaurants)
  }

  /** The menu_item_id foreign key: every stored order line references a
      stored menu row. */
  predicate LinesReferenceMenu(orders: map<int, OrderRecord>, menu: map<int, MenuItem>)
  {
    forall k, it :: k in orders && it in orders[k].orderItems ==> it.menuItem.Some? && it.menuItem.value in menu
  }

  /** Some stored order line references menu row `id`. */
  predicate MenuItemReferenced(orders: map<int, OrderRecord>, id: int)
  {
    exists k, it :: k in orders && it in orders[k].orderItems && it.menuItem == Some(id)
  }

  /** The key a save() of an entity with this id writes: its own when a row
      with that id exists (a merge), the next generated key otherwise. */
  function SaveKey<T>(table: map<int, T>, next: int, id: Option<int>): int
  {
    if id.Some? && id.value in table then id.value else next
  }

  /** The key generator after a save() under key `k`. */
  function NextAfterSave(next: int, k: int): int
  {
    if k == next then next + 1 else next
  }

  /** A table whose keys all lie below `next` is printed, in key order, as
      exactly its stored rows. */
  lemma RowsAreTheTable<T(!new)>(table: map<int, T>, next: int)
    requires forall k :: k in table ==> 1 <= k < next
    ensures forall x :: x in Scan(table, 1, next) <==> exists k :: k in table && table[k] == x
  {
  }

  /** A save() writes a row under a key not below 1 and moves the generator
      past it, so the key invariant of either table survives it. */
  lemma SaveKeyFits<T>(table: map<int, T>, next: int, id: Option<int>)
    requires 1 <= next && forall k :: k in table ==> 1 <= k < next
    ensures var k := SaveKey(table, next, id);
      1 <= k < NextAfterSave(next, k) && forall j :: j in table ==> j < NextAfterSave(next, k)
  {
  }

  /** The lines of an order about to be stored under key `k`: each valid
      there and referencing a row of `menu`. */
  predicate LinesFit(items: seq<OrderItem>, k: int, menu: map<int, MenuItem>)
  {
    forall it :: it in items ==> LineValid(it, k) && it.menuItem.Some? && it.menuItem.value in menu
  }

  /** Saving a valid row, whose lines reference stored menu rows, under its
      key keeps the order table valid and the foreign key satisfied. */
  lemma SaveOrderPreservesTable(table: map<int, OrderRecord>, next: int, users: set<int>, restaurants: set<int>,
                                menu: map<int, MenuItem>, k: int, row: OrderRecord)
    requires OrderTableValid(table, next, users, restaurants) && LinesReferenceMenu(table, menu)
    requires 1 <= k && (k in table || k == next)
    requires OrderRowValid(row, k, users, restaurants) && LinesFit(row.orderItems, k, menu)
    ensures OrderTableValid(table[k := row], NextAfterSave(next, k), users, restaurants)
    ensures LinesReferenceMenu(table[k := row], menu)
  {
  }

  // ---------------------------------------------------------------------------
  // The store

  class Database {
    var users: set<int>
    var restaurants: set<int>
    var menuItems: map<int, MenuItem>
    var nextMenuItemId: int
    var orders: map<int, OrderRecord>
    var nextOrderId: int

    /** The schema's constraints and the services' invariants. */
    ghost predicate Valid()
      reads this
    {
      && 1 <= nextMenuItemId && 1 <= nextOrderId
      && MenuKeysValid(menuItems, nextMenuItemId)
      && UniqueNames(menuItems)
      && MenuRestaurantsKnown(menuItems, restaurants)
      && OrderTableValid(orders, nextOrderId, users, restaurants)
      && LinesReferenceMenu(orders, menuItems)
    }

    /** A store with these directories and empty tables. */
    constructor (users: set<int>, restaurants: set<int>)
      ensures Valid()
      ensures this.users == users && this.restaurants == restaurants
      ensures menuItems == map[] && orders == map[]
      ensures nextMenuItemId == 1 && nextOrderId == 1
    {
      this.users, this.restaurants := users, restaurants;
      menuItems, nextMenuItemId := map[], 1;
      orders, nextOrderId := map[], 1;
    }

    /** The menu table in key order. */
    function MenuRows(): seq<MenuItem>
      reads this
    {
      Scan(menuItems, 1, nextMenuItemId)
    }

    /** The order table in key order. */
    function OrderRows(): seq<OrderRecord>
      reads this
    {
      Scan(orders, 1, nextOrderId)
    }
  }

  /** In a valid store the printed menu rows are exactly the stored ones. */
  lemma MenuRowsAreStored(db: Database)
    requires db.Valid()
    ensures forall m :: m in db.MenuRows() <==> exists k :: k in db.menuItems && db.menuItems[k] == m
  {
    RowsAreTheTable(db.menuItems, db.nextMenuItemId);
  }

  /** In a valid store the printed order rows are exactly the stored ones, and
      each keeps its total invariant. */
  lemma OrderRowsAreStored(db: Database)
    requires db.Valid()
    ensures forall o :: o in db.OrderRows() <==> exists k :: k in db.orders && db.orders[k] == o
    ensures forall o :: o in db.OrderRows() ==> TotalIsConsistent(o)
  {
    RowsAreTheTable(db.orders, db.nextOrderId);
  }
}
