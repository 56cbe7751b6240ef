# Food delivery orders and menu catalogue, modelled in Dafny

This project models the order and catalogue core of a Spring food-delivery
service (murugaprakash-133/spring_food_delivery_app):

- the **order aggregate**: an order, its lines, the total it keeps and its
  status;
- the **order lifecycle service**: creating an order against the user and
  restaurant directories and the menu catalogue, replacing an order's lines,
  the status guard, cancellation, deletion and the order queries;
- the **order queries and revenue report**: optional-filter queries and the
  revenue sum;
- the **menu catalogue**: adding, updating and deleting menu items under the
  rule that names are unique within a restaurant, the filtered listing, the
  distinct categories, the dietary test and `equals`/`hashCode`.

The persisted state is one `Store.Database` object:

- the user and restaurant directories, as sets of ids;
- the menu table and the order table, as maps from key to row. An order row
  owns its lines, and a line holds the key of the menu row it references.
- the two key generators.

`Database.Valid()` gathers the schema's constraints (NOT NULL columns and
foreign keys) and the services' invariants:

- every row is stored under its own generated key;
- every reference points to a registered user or restaurant;
- every order line references a stored menu item (the menu_item_id foreign
  key), and reads that item's current name and price through it;
- no two menu items of one restaurant share a name;
- every stored order has a status, a delivery address and a payment status,
  and its total equals its lines' total prices plus its delivery fee (0 when
  absent);
- every line points back to its order, and its subtotal is its quantity
  times its captured price.

The remaining NOT NULL columns cannot be null in the model: their fields are
not `Option`s.

Every state-changing service method preserves `Valid()`.

The services follow the Java code's own shape:

- the service classes hold the store and change it through `modifies db`;
- `OrderEntity` is a class whose methods update its fields in place. A stored
  row is loaded into it, edited with its methods, and written back, as JPA
  does.
- the per-line loops of `createOrder` and `updateOrder` are `while` loops
  proved against the value-level function `SnapshotItems`;
- the repository queries are functions over the table's rows.

Every `@Transactional` method is atomic: on any failure the store is left
exactly as it was.

Conventions:

- money is integer cents;
- a timestamp is an integer, and the current time is a parameter `now`;
- Java's `null` is `Option.None`;
- every exception is an `Error` value inside `Result.Err`;
- Java `int` quantities are `Int32`, and `getItemQuantities` sums them with
  Java's 32-bit wrap-around.

Where the code and the documented lifecycle disagree, the model follows the
code:

- the status guard only protects the terminal states, so any non-terminal
  status may jump to any other status, back to PENDING included;
- setting DELIVERED on a delivered order is accepted and re-stamps the
  delivery time;
- cancelling a delivered order returns `false` rather than raising;
- line quantities are not checked to be positive.

The shown `OrderItem` lacks the snapshot fields that the service and the total
use. The model adds them:

- the price and the name captured at order time;
- the subtotal;
- `getTotalPrice`, defined as quantity times the captured price, which is
  what the revenue query sums.

## Model

| member | source | states |
|---|---|---|
| OrderItems.GetItemName | src/main/java/com/examly/springapp/entity/OrderItem.java:19-26 | the current name, in the catalogue, of the menu row the line references; null exactly when no stored row is referenced |
| OrderItems.GetPrice | src/main/java/com/examly/springapp/entity/OrderItem.java:19-31 | the referenced menu row's current catalogue price times the quantity, and 0 when no menu item is linked |
| OrderItems.Snapshot | src/main/java/com/examly/springapp/service/OrderService.java:59-63 | the line's captured price and name are those of the referenced catalogue row; its subtotal is quantity × captured price, which is its total price; it references its order and that row; id and quantity are kept; at that moment getPrice and getItemName agree with the captured fields |
| OrderItems.SnapshotSurvivesCatalogueEdit | src/main/java/com/examly/springapp/service/OrderService.java:61-63 | after the referenced catalogue row is edited, a captured line keeps its price, name, subtotal and total price, while getPrice and getItemName, which read the row through the reference, follow the edit |
| Orders.ItemsTotal | src/main/java/com/examly/springapp/entity/OrderEntity.java:73-77 | the sum of the lines' total prices; how it changes under append, concatenation and removal is stated by the three ItemsTotal lemmas |
| Orders.OrderTotal | src/main/java/com/examly/springapp/entity/OrderEntity.java:73-80 | the lines' total plus the delivery fee, 0 when the fee is null; CalculateTotals establishes it |
| OrderItems.TotalPrice | src/main/java/com/examly/springapp/service/OrderService.java:63 | getTotalPrice, quantity × captured price; Snapshot makes it the subtotal |
| Orders.ItemsTotalAppend | src/main/java/com/examly/springapp/entity/OrderEntity.java:75-77 | appending a line adds exactly its total price to the items' sum |
| Orders.ItemsTotalConcat | src/main/java/com/examly/springapp/entity/OrderEntity.java:75-77 | the items' sum of two runs of lines is the sum of their sums |
| Orders.ItemsTotalRemoveFirst | src/main/java/com/examly/springapp/entity/OrderEntity.java:115-118 | removing a line that is present subtracts exactly its total price |
| Orders.ItemNames | src/main/java/com/examly/springapp/entity/OrderEntity.java:93-97 | getItemNames has one entry per line, in line order, each being that line's getItemName against the current catalogue |
| Orders.ItemQuantities | src/main/java/com/examly/springapp/entity/OrderEntity.java:100-106 | getItemQuantities, folded line by line; its keys and values are stated by ItemQuantitiesKeys and ItemQuantitiesValues |
| Orders.ItemQuantitiesKeys | src/main/java/com/examly/springapp/entity/OrderEntity.java:100-106 | the keys of getItemQuantities are exactly the item names of the lines |
| Orders.ItemQuantitiesValues | src/main/java/com/examly/springapp/entity/OrderEntity.java:100-106 | each value is the sum of the quantities of the lines with that name, wrapped as Java `int` addition wraps |
| Orders.QuantityOfAbsent | src/main/java/com/examly/springapp/entity/OrderEntity.java:100-106 | a name that no line carries has a quantity sum of 0 |
| Orders.OrderEntity.OrderItemsView | src/main/java/com/examly/springapp/entity/OrderEntity.java:165-167 | getOrderItems is a read-only view holding exactly the order's lines |
| Orders.OrderEntity.constructor | src/main/java/com/examly/springapp/entity/OrderEntity.java:58-60 | a new order is stamped with the current time, and everything else is unset |
| Orders.OrderEntity.ForCustomer | src/main/java/com/examly/springapp/entity/OrderEntity.java:62-68 | the three-argument constructor gives a PENDING order with the given user, restaurant and address, stamped now, and no lines |
| Orders.OrderEntity.Load | src/main/java/com/examly/springapp/service/OrderService.java:86-87 | the entity findById hands back holds exactly the stored row |
| Orders.OrderEntity.CalculateTotals | src/main/java/com/examly/springapp/entity/OrderEntity.java:73-80 | the total becomes the lines' sum plus the fee (0 when absent), and nothing else changes |
| Orders.OrderEntity.AddOrderItem | src/main/java/com/examly/springapp/entity/OrderEntity.java:109-113 | the line is appended at the end, pointing to this order; the total grows by exactly its total price, and the invariant holds |
| Orders.OrderEntity.RemoveOrderItem | src/main/java/com/examly/springapp/entity/OrderEntity.java:115-119 | the first equal line is removed and returned without its back-reference; the total falls by its total price when it was present, and the invariant holds |
| Orders.OrderEntity.UpdateStatus | src/main/java/com/examly/springapp/entity/OrderEntity.java:121-126 | the status is set; the delivery time changes only when the new status is DELIVERED, and then becomes now; nothing else changes |
| Orders.OrderEntity.SetDeliveryFee | src/main/java/com/examly/springapp/entity/OrderEntity.java:189-192 | the fee is replaced and the total re-established from it |
| OrderRepository.FindByRestaurantId | src/main/java/com/examly/springapp/repository/OrderRepository.java:21 | exactly the restaurant's orders |
| OrderRepository.FindByUserId | src/main/java/com/examly/springapp/repository/OrderRepository.java:19 | exactly the user's orders |
| OrderRepository.FindRestaurantOrdersWithFilters | src/main/java/com/examly/springapp/repository/OrderRepository.java:23-33 | exactly the restaurant's orders whose status equals a given status, and whose order date is at or after a given from-date and at or before a given to-date |
| OrderRepository.FindUserOrdersWithFilters | src/main/java/com/examly/springapp/repository/OrderRepository.java:35-45 | the same conjunction, keyed on the user |
| OrderRepository.NoFiltersIsAllRestaurantOrders | src/main/java/com/examly/springapp/repository/OrderRepository.java:23-27 | with every optional filter absent, the filtered restaurant query is the plain one, row for row |
| OrderRepository.NoFiltersIsAllUserOrders | src/main/java/com/examly/springapp/repository/OrderRepository.java:35-39 | with every optional filter absent, the filtered user query is the plain one, row for row |
| OrderRepository.FindByStatus | src/main/java/com/examly/springapp/repository/OrderRepository.java:59 | exactly the orders in that status |
| OrderRepository.CalculateRestaurantRevenue | src/main/java/com/examly/springapp/repository/OrderRepository.java:47-55 | null exactly when no delivered order of the restaurant inside the window has a line; otherwise the sum of quantity × captured price over those orders' lines |
| OrderRepository.RevenueItemsEmpty | src/main/java/com/examly/springapp/repository/OrderRepository.java:47-51 | no line qualifies exactly when every qualifying order has no lines |
| OrderRepository.RevenueItemsConcat | src/main/java/com/examly/springapp/repository/OrderRepository.java:47-51 | the qualifying lines of two runs of orders are those of the first run followed by those of the second |
| OrderRepository.RevenueAdditive | src/main/java/com/examly/springapp/repository/OrderRepository.java:47-55 | the revenue, read as 0 when null, is additive over a split of the order table |
| OrderRepository.NonQualifyingOrderContributesNothing | src/main/java/com/examly/springapp/repository/OrderRepository.java:48-51 | an order that is not DELIVERED, belongs to another restaurant or lies outside the window leaves the revenue unchanged |
| OrderRepository.NoDeliveredOrdersMeansZero | src/main/java/com/examly/springapp/repository/OrderRepository.java:47-55 | a restaurant with no delivered order has null revenue, which is reported as 0 |
| OrderRepository.RevenueFromOrderTotals | src/main/java/com/examly/springapp/repository/OrderRepository.java:47-55 | where every order keeps its total invariant, the revenue is the qualifying orders' totals less their delivery fees |
| OrderRepository.RevenueIsItemsTotal | src/main/java/com/examly/springapp/controller/OrderController.java:167 | the revenue, with null reported as 0, is the items' sum over the qualifying lines |
| OrderLifecycle.ReferenceError | src/main/java/com/examly/springapp/service/OrderService.java:40-43 | the user is looked up first: an unknown user gives "User not found", then an unknown restaurant gives "Restaurant not found", and a null id is a missing reference; there is no failure exactly when both exist |
| OrderLifecycle.ResolveMenuItem | src/main/java/com/examly/springapp/service/OrderService.java:56-57 | a line resolves exactly when it references a menu item id that is in the catalogue, and then to that id; an unknown id gives "MenuItem not found: id"; a line with no menu item is a missing reference |
| OrderLifecycle.SnapshotItems | src/main/java/com/examly/springapp/service/OrderService.java:55-66 | the per-line loop on values; SnapshotItemsSucceed, SnapshotItemsFail and SnapshotLinesValid state what it yields |
| OrderLifecycle.SnapshotItemsSucceed | src/main/java/com/examly/springapp/service/OrderService.java:55-66 | the line loop succeeds exactly when every line resolves, and then line i is line i snapshotted from its menu item |
| OrderLifecycle.SnapshotItemsFail | src/main/java/com/examly/springapp/service/OrderService.java:55-57 | the line loop fails with the error of the first line that does not resolve, all before it resolving |
| OrderLifecycle.SnapshotLinesValid | src/main/java/com/examly/springapp/service/OrderService.java:59-63 | every line of a successful loop points to the order, has its subtotal equal to quantity × captured price, and references a row of the catalogue |
| OrderLifecycle.SnapshotErrorPropagates | src/main/java/com/examly/springapp/service/OrderService.java:55-57 | a failure among the first lines is the failure of the whole list |
| OrderLifecycle.SnapshotStep | src/main/java/com/examly/springapp/service/OrderService.java:55-66 | one more iteration of the loop extends a successful prefix by the next line's snapshot, or fails with that line's error |
| OrderLifecycle.SnapshotLinesInPlace | src/main/java/com/examly/springapp/service/OrderService.java:55-66 | the loop replaces each line of the order in place by its snapshot, or fails with the first line's error; no other field changes |
| OrderLifecycle.AppendSnapshotLines | src/main/java/com/examly/springapp/service/OrderService.java:95-107 | the loop appends the snapshot of each supplied line with addOrderItem, or fails with the first line's error; the other fields are unchanged |
| OrderLifecycle.BuildOrder | src/main/java/com/examly/springapp/service/OrderService.java:48-69 | the order built for the new key is the draft with that id, created now, PENDING, with its lines snapshotted, each valid and referencing the catalogue, and its total consistent |
| OrderLifecycle.EditOrder | src/main/java/com/examly/springapp/service/OrderService.java:89-110 | the edited order overwrites the address, instructions and fee, has exactly the supplied lines snapshotted, each valid and referencing the catalogue, and has its total recomputed |
| OrderLifecycle.StatusGuard | src/main/java/com/examly/springapp/service/OrderService.java:125-130 | no failure exactly when the order is not terminal or is asked for the status it already has; cancelled and delivered orders each raise their own error |
| OrderLifecycle.GuardAdmitsDocumentedTransitions | src/main/java/com/examly/springapp/service/OrderService.java:125-130 | every transition of the documented lifecycle passes the guard |
| OrderLifecycle.GuardAdmitsUndocumentedJumps | src/main/java/com/examly/springapp/service/OrderService.java:125-130 | the guard also passes transitions outside the documented lifecycle (PENDING to DELIVERED, OUT_FOR_DELIVERY to PENDING) |
| OrderLifecycle.GuardAgreesOnTerminalStates | src/main/java/com/examly/springapp/service/OrderService.java:125-130 | from a terminal state, the guard and the documented lifecycle accept the same moves |
| OrderLifecycle.OrderService.CreateOrder | src/main/java/com/examly/springapp/service/OrderService.java:37-71 | the reference errors come first; then the save at line 52 fails when the delivery address or payment status (NOT NULL columns, OrderEntity.java:45-49) is null; then the first unresolved line's error. Each failure leaves the store unchanged, and when none applies the call succeeds: the order is stored under a fresh key (or its own existing key), PENDING, created now, with snapshotted lines and a consistent total, and nothing else changes |
| OrderLifecycle.OrderService.UpdateOrder | src/main/java/com/examly/springapp/service/OrderService.java:85-113 | corrected updateOrder: empty and unchanged for an unknown id; a line's error, then a null delivery address (a NOT NULL column), each leave the store unchanged; otherwise address, instructions and fee are overwritten, the lines are exactly the supplied ones snapshotted, the total is recomputed, and no other row changes |
| OrderLifecycle.OrderService.UpdateOrderAsWritten | src/main/java/com/examly/springapp/service/OrderService.java:85-94 | as written: empty for an unknown id; for every existing order, clearing the read-only view raises, so nothing is ever stored |
| OrderLifecycle.OrderService.DeleteOrder | src/main/java/com/examly/springapp/service/OrderService.java:115-120 | an unknown id fails with "Order not found" and changes nothing; otherwise exactly that order and its lines are removed |
| OrderLifecycle.OrderService.UpdateOrderStatus | src/main/java/com/examly/springapp/service/OrderService.java:122-134 | empty for an unknown id; the guard's error leaves the store unchanged; otherwise only the status (and, on DELIVERED, the delivery time) of that order changes |
| OrderLifecycle.OrderService.CancelOrder | src/main/java/com/examly/springapp/service/OrderService.java:144-158 | true exactly when the order exists and is not DELIVERED, and then only its status changes, to CANCELLED; false leaves the store unchanged |
| OrderLifecycle.OrderService.GetOrderById | src/main/java/com/examly/springapp/service/OrderService.java:136-138 | the stored order, or empty exactly when the id is unknown |
| OrderLifecycle.OrderService.GetOrderDetails | src/main/java/com/examly/springapp/service/OrderService.java:164-167 | the stored order, or "Order not found" exactly when the id is unknown |
| OrderLifecycle.OrderService.GetOrdersByStatus | src/main/java/com/examly/springapp/service/OrderService.java:140-142 | exactly the stored orders in that status |
| OrderLifecycle.OrderService.GetOrdersByUser | src/main/java/com/examly/springapp/service/OrderService.java:73-77 | the page is PageRequest.of(page, size) applied to the user's stored orders that pass the filters, in key order: a bad page index or size fails; otherwise the page-th slice of `size` rows, with totalElements the number of matching orders |
| OrderLifecycle.OrderService.GetOrdersByRestaurant | src/main/java/com/examly/springapp/service/OrderService.java:79-83 | the same for the restaurant's stored orders that pass the filters |
| OrderLifecycle.SortArgumentsIgnored | src/main/java/com/examly/springapp/service/OrderService.java:73-83 | both listings are the same whatever `sortBy` and `sortOrder` are |
| OrderLifecycle.OrderService.CalculateRestaurantRevenue | src/main/java/com/examly/springapp/service/OrderService.java:160-162 | null exactly when no qualifying stored order has a line; read as 0 when null, it equals the qualifying orders' totals less their fees |
| Common.PageOf | src/main/java/com/examly/springapp/service/OrderService.java:75-76 | a negative page or a size below 1 fails; otherwise the page holds exactly the rows at positions [page·size, page·size+size) of the result, clipped to it, and reports the page, the size and the result's length |
| Common.RowOnItsPage | src/main/java/com/examly/springapp/service/OrderService.java:75-76 | every row of a result is on the page its position gives, so walking the pages visits every row |
| Common.DecimalStringRoundTrip | src/main/java/com/examly/springapp/service/MenuService.java:120 | the id rendered in the deletion message parses back to that id |
| MenuItems.NewMenuItem | src/main/java/com/examly/springapp/entity/MenuItem.java:33-43 | a new item has the given name, price, category and restaurant, no id, and is available, not vegetarian, not vegan and gluten-free |
| MenuItems.MatchesDietaryRequirements | src/main/java/com/examly/springapp/entity/MenuItem.java:66-70 | the dietary test; MatchesIffAllRequestedMet states it as every requested requirement being met |
| MenuItems.Requested | src/main/java/com/examly/springapp/entity/MenuItem.java:66-70 | the set of requirements asked for holds each requirement exactly when its flag is set |
| MenuItems.MatchesIffAllRequestedMet | src/main/java/com/examly/springapp/entity/MenuItem.java:66-70 | matchesDietaryRequirements is true exactly when the item meets every requested requirement |
| MenuItems.NoRequirementsMatchAll | src/main/java/com/examly/springapp/entity/MenuItem.java:66-70 | asking for nothing matches every item |
| MenuItems.MoreRequirementsNeverHelp | src/main/java/com/examly/springapp/entity/MenuItem.java:66-70 | an item matching a larger set of requirements matches every smaller one |
| MenuItems.Equals | src/main/java/com/examly/springapp/entity/MenuItem.java:162-170 | equality on id, name and restaurant; EqualsIsEquivalence and EqualsIgnoresOtherFields state its properties |
| MenuItems.EqualsIsEquivalence | src/main/java/com/examly/springapp/entity/MenuItem.java:162-170 | equals, which compares exactly id, name and restaurant, is reflexive, symmetric and transitive |
| MenuItems.EqualsIgnoresOtherFields | src/main/java/com/examly/springapp/entity/MenuItem.java:162-170 | changing price, category or availability keeps an item equal to itself |
| MenuItems.HashCode | src/main/java/com/examly/springapp/entity/MenuItem.java:172-175 | Objects.hash of id, name and restaurant in Java int arithmetic; HashCodeAgreesWithEquals states its agreement with equals |
| MenuItems.HashCodeAgreesWithEquals | src/main/java/com/examly/springapp/entity/MenuItem.java:172-175 | equal items have equal hash codes (Objects.hash of id, name and restaurant, in Java int arithmetic) |
| MenuRepository.FindByRestaurantId | src/main/java/com/examly/springapp/repository/MenuRepository.java:14-15 | exactly the restaurant's items |
| MenuRepository.FindByRestaurantIdWithFilters | src/main/java/com/examly/springapp/repository/MenuRepository.java:17-31 | exactly the restaurant's items whose category, vegetarian, vegan, gluten and availability fields equal each filter that is given |
| MenuRepository.NoFiltersIsAllMenuItems | src/main/java/com/examly/springapp/repository/MenuRepository.java:14-23 | with every filter null, the filtered query is the plain one, row for row |
| MenuRepository.Categories | src/main/java/com/examly/springapp/repository/MenuRepository.java:33 | the category column has one entry per item, in order |
| MenuRepository.FindDistinctCategoriesByRestaurantId | src/main/java/com/examly/springapp/repository/MenuRepository.java:33-34 | no duplicates, and a category is listed exactly when some item of the restaurant has it |
| MenuRepository.ExistsByNameAndRestaurantId | src/main/java/com/examly/springapp/repository/MenuRepository.java:36 | true exactly when some item of the restaurant has that name |
| MenuRepository.FindByNameAndRestaurantId | src/main/java/com/examly/springapp/repository/MenuRepository.java:38 | empty exactly when nothing matches, the single match when there is one, and a non-unique-result failure when several match |
| MenuRepository.ExistsIffFound | src/main/java/com/examly/springapp/repository/MenuRepository.java:36-38 | existsByNameAndRestaurantId is true exactly when findByNameAndRestaurantId is non-empty |
| MenuRepository.UniqueNamesAtMostOneHit | src/main/java/com/examly/springapp/repository/MenuRepository.java:38 | in a table with unique names per restaurant, at most one row matches a name |
| MenuRepository.UniqueNamesSingleResult | src/main/java/com/examly/springapp/repository/MenuRepository.java:38 | in such a table the single-result lookup never fails |
| MenuCatalogue.DirectionOf | src/main/java/com/examly/springapp/service/MenuService.java:59-60 | descending exactly when sortDir equals "desc" ignoring case, and ascending otherwise |
| MenuCatalogue.DirectionExamples | src/main/java/com/examly/springapp/service/MenuService.java:59-60 | "desc", "DESC" and "Desc" sort descending; "asc", "descending" and "" sort ascending |
| MenuCatalogue.SelectQuery | src/main/java/com/examly/springapp/service/MenuService.java:63-70 | the filtered query runs exactly when some filter is non-null, with those filters |
| MenuCatalogue.QuerySelectionIsTransparent | src/main/java/com/examly/springapp/service/MenuService.java:63-70 | the selected query returns the same rows as the filtered query would, whether or not a filter is given |
| MenuCatalogue.NameTaken | src/main/java/com/examly/springapp/repository/MenuRepository.java:36 | some stored item of the restaurant has that name; AddMenuItem and UpdateMenuItem show it is what existsByNameAndRestaurantId answers on the store |
| MenuCatalogue.CollidesAsWritten | src/main/java/com/examly/springapp/service/MenuService.java:95-99 | the collision check as written, a name change onto a taken name; see AsWrittenGuardAdmitsDuplicate |
| MenuCatalogue.Collides | src/main/java/com/examly/springapp/service/MenuService.java:95-99 | the corrected check, also firing when the restaurant changes onto a taken name; CollisionCheckPreservesUniqueNames proves it keeps names unique |
| MenuCatalogue.AsWrittenGuardAdmitsDuplicate | src/main/java/com/examly/springapp/service/MenuService.java:95-99 | as written, an item can move under its name into a restaurant that already has that name: the check lets it through, and the table loses unique names |
| MenuCatalogue.CollisionCheckPreservesUniqueNames | src/main/java/com/examly/springapp/service/MenuService.java:95-110 | an update that the corrected check lets through keeps the names of every restaurant unique |
| MenuCatalogue.KeepingNameNeverCollides | src/main/java/com/examly/springapp/service/MenuService.java:95-99 | as written, keeping the name never collides; the corrected check also never collides when the name and the restaurant are both kept |
| MenuCatalogue.ChecksAgreeWithinRestaurant | src/main/java/com/examly/springapp/service/MenuService.java:95-99 | the two checks give the same answer unless the restaurant changes |
| MenuCatalogue.StoredMenuNamesUnique | src/main/java/com/examly/springapp/repository/MenuRepository.java:38 | in a valid store the listed menu rows have unique names per restaurant, so findByNameAndRestaurantId never fails with a non-unique result |
| MenuCatalogue.MenuService.AddMenuItem | src/main/java/com/examly/springapp/service/MenuService.java:28-41 | a missing or unknown restaurant fails, and so does a name already used in that restaurant, each leaving the store unchanged; when none of these applies the call succeeds: the item is saved under a new key (or its own existing key), linked to the restaurant, names stay unique, and nothing else changes |
| MenuCatalogue.MenuService.UpdateMenuItem | src/main/java/com/examly/springapp/service/MenuService.java:84-114 | corrected updateMenuItem: empty for an unknown id; missing restaurant information, an unknown restaurant or a collision fails, each leaving the store unchanged; when none of these applies the call succeeds: every field comes from the supplied item, the id is kept, no other item changes, orders are untouched, and names stay unique |
| MenuCatalogue.MenuService.DeleteMenuItem | src/main/java/com/examly/springapp/service/MenuService.java:116-124 | an unknown id fails naming the id; an item that an order line still references fails at commit with the menu_item_id foreign key (OrderItem.java:19-21); both remove nothing. Otherwise the item is removed, nothing else changes, and the message names its id |
| MenuCatalogue.MenuService.GetMenuItemsByRestaurant | src/main/java/com/examly/springapp/service/MenuService.java:43-71 | the checks fail in order: unknown restaurant, a sort property without text, bad page index, bad page size; otherwise the sort is descending exactly for "desc" ignoring case, the filtered query runs exactly when a filter is given, and the selected rows are exactly the restaurant's stored items passing every filter |
| MenuCatalogue.MenuService.GetMenuCategoriesByRestaurant | src/main/java/com/examly/springapp/service/MenuService.java:73-78 | fails exactly for an unknown restaurant; otherwise each category of its stored items once |
| MenuCatalogue.MenuService.GetMenuItemById | src/main/java/com/examly/springapp/service/MenuService.java:80-82 | the stored item, or empty exactly when the id is unknown |

## Left out

- The clock and the database are not modelled as I/O: `LocalDateTime.now()` is the parameter `now`, and the tables are the fields of `Store.Database`.
- Sorting and slicing inside a menu listing are not modelled: `GetMenuItemsByRestaurant` returns the sort and page request it builds together with the rows it selects, unsorted.
- Queries without an ORDER BY are taken to return rows in ascending key order.
- JPA cascades, lazy loading and dirty checking are not modelled. Orders own their lines, so deleting an order deletes them.
- Bean validation (`@NotBlank` and the like) is not modelled; the NOT NULL columns and the foreign keys are.
- At createOrder's first save only the order row is written. The cascade would also insert the draft's lines there, before the loop links them to the order; that insert is not modelled.
- A draft line's menu item is its id alone: a null menu item and a menu item with a null id are both `None`, and both are a missing reference.
- A line whose menu id is absent from the catalogue reads, in `GetItemName` and `GetPrice`, as having no menu item. The foreign key keeps such a line out of the store.
- Order lines are not given ids of their own by `orderItemRepository.save`: a line keeps whatever id it arrived with.
- A key handed out to an insert that then rolls back is not consumed: on any failure the key generator is unchanged.
- A `save` of an entity whose id is set but not stored is modelled as an insert under a fresh key. Hibernate versions differ here.
- A null `sortBy` or `sortDir`, whose dereference would throw, is not modelled: both are plain strings here, and the controller always supplies defaults.
- IEEE `Double` rounding of prices, fees and totals is not modelled: money is exact integer cents.
- The `OrderItem` setters are not separate members: each one is a field update of the datatype, which by construction changes only its own field.
- `MenuItems.HashCode` hashes the restaurant's id where Java hashes the `Restaurant` object's identity hash, which `Restaurant` does not override. So equal items hash equally in the model, but the concrete hash values differ from Java's.
- `Orders.OrderEntity.RemoveOrderItem` removes the first line equal as a value. Java's `remove` uses `OrderItem.equals`, which is not overridden, so Java removes by object identity.
- Order line quantities are not checked to be positive, matching the code.
- Concurrency and transaction isolation are not modelled: each transactional method is one atomic step.

## Findings

| source | as written | input that shows it | evidently intended | confidence | as-written member | corrected member |
|---|---|---|---|---|---|---|
| src/main/java/com/examly/springapp/service/OrderService.java:94 | `order.getOrderItems().clear()` clears the read-only view that `getOrderItems` returns (OrderEntity.java:165-167); this always throws, so the transaction rolls back | any existing order id, with any details | clear the order's own line list, then refill it with the supplied lines | not executed | OrderLifecycle.OrderService.UpdateOrderAsWritten | OrderLifecycle.OrderService.UpdateOrder |
| src/main/java/com/examly/springapp/service/MenuService.java:95-99 | the duplicate-name check runs only when the name changes, but the update may also move the item to another restaurant | items 1 = "Pizza" at restaurant 1 and 2 = "Pizza" at restaurant 2; update item 1 to "Pizza" at restaurant 2 | also check when the restaurant changes, so names stay unique per restaurant | not executed | MenuCatalogue.AsWrittenGuardAdmitsDuplicate | MenuCatalogue.MenuService.UpdateMenuItem |
