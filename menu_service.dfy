/** The menu catalogue (MenuService): adding, updating and deleting a
    restaurant's menu items under the rule that names are unique within a
    restaurant, and the listing and category queries. */
module MenuCatalogue {
  import opened Common
  import opened MenuItems
  import opened Store
  import MenuRepository

  // ---------------------------------------------------------------------------
  // Sort and query selection of getMenuItemsByRestaurant

  datatype Direction = Asc | Desc

  /** Sort.by(direction, property). */
  datatype Sort = Sort(direction: Direction, property: string)

  /** The repository query a listing runs. */
  datatype MenuQuery = ByRestaurant | ByRestaurantWithFilters(filters: MenuRepository.MenuFilters)

  /** What a listing call hands to the repository, with the rows it selects
      (before they are sorted and cut into the requested page). */
  datatype MenuListing = MenuListing(query: MenuQuery, sort: Sort, page: int, size: int, matching: seq<MenuItem>)

  /** `sortDir.equalsIgnoreCase("desc")`: four characters, each equal to the
      letter of "desc" after upper-casing; besides the ASCII letters, the long
      s (U+017F) upper-cases to 'S'. */
  predicate SortDirIsDesc(sortDir: string)
  {
    && |sortDir| == 4
    && (sortDir[0] == 'd' || sortDir[0] == 'D')
    && (sortDir[1] == 'e' || sortDir[1] == 'E')
    && (sortDir[2] == 's' || sortDir[2] == 'S' || sortDir[2] == '\U{017F}')
    && (sortDir[3] == 'c' || sortDir[3] == 'C')
  }

  /** The direction parsed from `sortDir`: descending only for "desc" in any
      case, ascending for everything else. */
  function DirectionOf(sortDir: string): (d: Direction)
    ensures d == Desc <==> SortDirIsDesc(sortDir)
  {
    if SortDirIsDesc(sortDir) then Desc else Asc
  }

  /** Any spelling of "desc" sorts descending; anything else ascending. */
  lemma DirectionExamples()
    ensures DirectionOf("desc") == Desc && DirectionOf("DESC") == Desc && DirectionOf("Desc") == Desc
    ensures DirectionOf("asc") == Asc && DirectionOf("descending") == Asc && DirectionOf("") == Asc
  {
  }

  /** Character.isWhitespace. */
  predicate IsWhitespace(c: char)
  {
    || ('\t' <= c <= '\r') || ('\U{001C}' <= c <= ' ')
    || c == '\U{1680}' || ('\U{2000}' <= c <= '\U{2006}') || ('\U{2008}' <= c <= '\U{200A}')
    || c == '\U{2028}' || c == '\U{2029}' || c == '\U{205F}' || c == '\U{3000}'
  }

  /** StringUtils.hasText, which Sort.by demands of a property name. */
  predicate HasText(s: string)
  {
    exists i :: 0 <= i < |s| && !IsWhitespace(s[i])
  }

  /** The query getMenuItemsByRestaurant runs: the filtered one as soon as any
      filter is supplied. */
  function SelectQuery(filters: MenuRepository.MenuFilters): (q: MenuQuery)
    ensures q.ByRestaurantWithFilters? <==> MenuRepository.AnyFilter(filters)
    ensures q.ByRestaurantWithFilters? ==> q.filters == filters
  {
    if MenuRepository.AnyFilter(filters) then ByRestaurantWithFilters(filters) else ByRestaurant
  }

  /** The rows a query selects. */
  function RunQuery(q: MenuQuery, rows: seq<MenuItem>, restaurantId: int): seq<MenuItem>
  {
    match q
    case ByRestaurant => MenuRepository.FindByRestaurantId(rows, restaurantId)
    case ByRestaurantWithFilters(f) => MenuRepository.FindByRestaurantIdWithFilters(rows, restaurantId, f)
  }

  /** Choosing the plain query when no filter is given loses nothing: it
      selects the rows the filtered query would. */
  lemma QuerySelectionIsTransparent(rows: seq<MenuItem>, restaurantId: int, filters: MenuRepository.MenuFilters)
    ensures RunQuery(SelectQuery(filters), rows, restaurantId)
         == MenuRepository.FindByRestaurantIdWithFilters(rows, restaurantId, filters)
  {
    if !MenuRepository.AnyFilter(filters) {
      assert filters == MenuRepository.NoFilters;
      MenuRepository.NoFiltersIsAllMenuItems(rows, restaurantId);
    }
  }

  // ---------------------------------------------------------------------------
  // The uniqueness rule

  /** Some stored item of the restaurant has this name. */
  predicate NameTaken(table: map<int, MenuItem>, name: string, restaurantId: int)
  {
    exists k :: k in table && table[k].name == name && table[k].restaurant == Some(restaurantId)
  }

  /** updateMenuItem's collision check as written: only a change of name is
      checked against the target restaurant. */
  predicate CollidesAsWritten(table: map<int, MenuItem>, existing: MenuItem, updated: MenuItem, restaurantId: int)
  {
    existing.name != updated.name && NameTaken(table, updated.name, restaurantId)
  }

  /** The collision check the rule needs: a change of name or of restaurant
      is checked against the target restaurant. */
  predicate Collides(table: map<int, MenuItem>, existing: MenuItem, updated: MenuItem, restaurantId: int)
  {
    (existing.name != updated.name || existing.restaurant != Some(restaurantId)) && NameTaken(table, updated.name, restaurantId)
  }

  /** The check as written lets an item move, under its name, into a
      restaurant that already has an item of that name. */
  lemma AsWrittenGuardAdmitsDuplicate()
    ensures var pizza := MenuItem(Some(1), "Pizza", 900, None, "Mains", true, false, false, true, Some(1), None);
      var other := pizza.(id := Some(2), restaurant := Some(2));
      var table := map[1 := pizza, 2 := other];
      var moved := pizza.(restaurant := Some(2));
      && UniqueNames(table)
      && !CollidesAsWritten(table, table[1], pizza, 2)
      && !UniqueNames(table[1 := moved])
      && Collides(table, table[1], pizza, 2)
  {
    var pizza := MenuItem(Some(1), "Pizza", 900, None, "Mains", true, false, false, true, Some(1), None);
    var other := pizza.(id := Some(2), restaurant := Some(2));
    var table := map[1 := pizza, 2 := other];
    var after := table[1 := pizza.(restaurant := Some(2))];
    assert 1 in after && 2 in after && after[1].restaurant == after[2].restaurant && after[1].name == after[2].name;
    assert table[2].name == "Pizza" && table[2].restaurant == Some(2);
  }

  /** The corrected check keeps the rule: an update it lets through leaves
      every restaurant's names unique. */
  lemma CollisionCheckPreservesUniqueNames(table: map<int, MenuItem>, k: int, updated: MenuItem, restaurantId: int)
    requires UniqueNames(table) && k in table
    requires !Collides(table, table[k], updated, restaurantId)
    ensures UniqueNames(table[k := updated.(id := table[k].id, restaurant := Some(restaurantId))])
  {
  }

  /** Keeping the name never collides under the check as written, whatever
      the restaurant; under the corrected check it never collides as long as
      the restaurant is kept too. */
  lemma KeepingNameNeverCollides(table: map<int, MenuItem>, existing: MenuItem, updated: MenuItem, restaurantId: int)
    requires updated.name == existing.name
    ensures !CollidesAsWritten(table, existing, updated, restaurantId)
    ensures existing.restaurant == Some(restaurantId) ==> !Collides(table, existing, updated, restaurantId)
  {
  }

  /** The two checks differ only when the restaurant changes. */
  lemma ChecksAgreeWithinRestaurant(table: map<int, MenuItem>, existing: MenuItem, updated: MenuItem, restaurantId: int)
    requires existing.restaurant == Some(restaurantId)
    ensures Collides(table, existing, updated, restaurantId) <==> CollidesAsWritten(table, existing, updated, restaurantId)
  {
  }

  /** The stored catalogue keeps the name rule in listing order too, so the
      single-result lookup by name and restaurant never finds two rows. */
  lemma StoredMenuNamesUnique(db: Database)
    requires db.Valid()
    ensures MenuRepository.NamesUnique(db.MenuRows())
    ensures forall name, restaurantId :: MenuRepository.FindByNameAndRestaurantId(db.MenuRows(), name, restaurantId).Ok?
  {
    var rows := db.MenuRows();
    forall i, j | 0 <= i < j < |rows| && rows[i].restaurant.Some? && rows[i].restaurant == rows[j].restaurant
      ensures rows[i].name != rows[j].name
    {
      ScanPositions(db.menuItems, 1, db.nextMenuItemId, i, j);
    }
    forall name, restaurantId ensures MenuRepository.FindByNameAndRestaurantId(rows, name, restaurantId).Ok? {
      MenuRepository.UniqueNamesSingleResult(rows, name, restaurantId);
    }
  }

  // ---------------------------------------------------------------------------
  // The service

  class MenuService {
    const db: Database

    constructor (db: Database)
      ensures this.db == db
    {
      this.db := db;
    }

    /** addMenuItem: the restaurant must exist and must not already have an
        item of that name; the item is then saved, linked to the restaurant. */
    method AddMenuItem(item: MenuItem) returns (r: Result<MenuItem>)
      requires db.Valid()
      modifies db
      ensures db.Valid()
      ensures item.restaurant.None? ==> r == Err(MissingReference)
      ensures item.restaurant.Some? && item.restaurant.value !in old(db.restaurants) ==>
        r == Err(RestaurantIdNotFound(item.restaurant.value))
      ensures item.restaurant.Some? && item.restaurant.value in old(db.restaurants)
              && NameTaken(old(db.menuItems), item.name, item.restaurant.value) ==>
        r == Err(DuplicateMenuItemName(item.name))
      ensures item.restaurant.Some? && item.restaurant.value in old(db.restaurants)
              && !NameTaken(old(db.menuItems), item.name, item.restaurant.value) ==>
        r.Ok?
      ensures r.Err? ==> unchanged(db)
      ensures r.Ok? ==>
        var k := SaveKey(old(db.menuItems), old(db.nextMenuItemId), item.id);
        && item.restaurant.Some? && item.restaurant.value in old(db.restaurants)
        && !NameTaken(old(db.menuItems), item.name, item.restaurant.value)
        && r.value == item.(id := Some(k))
        && db.menuItems == old(db.menuItems)[k := r.value]
        && db.nextMenuItemId == NextAfterSave(old(db.nextMenuItemId), k)
        && db.orders == old(db.orders) && db.nextOrderId == old(db.nextOrderId)
        && db.users == old(db.users) && db.restaurants == old(db.restaurants)
    {
      if item.restaurant.None? {
        return Err(MissingReference);
      }
      var restaurantId := item.restaurant.value;
      if restaurantId !in db.restaurants {
        return Err(RestaurantIdNotFound(restaurantId));
      }
      MenuRowsAreStored(db);
      if MenuRepository.ExistsByNameAndRestaurantId(db.MenuRows(), item.name, restaurantId) {
        return Err(DuplicateMenuItemName(item.name));
      }
      var k := SaveKey(db.menuItems, db.nextMenuItemId, item.id);
      SaveKeyFits(db.menuItems, db.nextMenuItemId, item.id);
      var saved := item.(id := Some(k));
      db.menuItems := db.menuItems[k := saved];
      db.nextMenuItemId := NextAfterSave(db.nextMenuItemId, k);
      r := Ok(saved);
    }

    /** updateMenuItem: empty for an unknown id; otherwise the restaurant must
        be given and exist and the name must not collide there, and then every
        field is copied from `updated` except the id, which is kept, and the
        restaurant, which is the one looked up. */
    method UpdateMenuItem(id: int, updated: MenuItem) returns (r: Result<Option<MenuItem>>)
      requires db.Valid()
      modifies db
      ensures db.Valid()
      ensures id !in old(db.menuItems) ==> r == Ok(None)
      ensures id in old(db.menuItems) && updated.restaurant.None? ==> r == Err(RestaurantInfoRequired)
      ensures id in old(db.menuItems) && updated.restaurant.Some? && updated.restaurant.value !in old(db.restaurants) ==>
        r == Err(RestaurantIdNotFound(updated.restaurant.value))
      ensures id in old(db.menuItems) && updated.restaurant.Some? && updated.restaurant.value in old(db.restaurants)
              && Collides(old(db.menuItems), old(db.menuItems[id]), updated, updated.restaurant.value) ==>
        r == Err(DuplicateMenuItemName(updated.name))
      ensures id in old(db.menuItems) && updated.restaurant.Some? && updated.restaurant.value in old(db.restaurants)
              && !Collides(old(db.menuItems), old(db.menuItems[id]), updated, updated.restaurant.value) ==>
        r.Ok? && r.value.Some?
      ensures r.Err? || r == Ok(None) ==> unchanged(db)
      ensures r.Ok? && r.value.Some? ==>
        && id in old(db.menuItems) && updated.restaurant.Some?
        && !Collides(old(db.menuItems), old(db.menuItems[id]), updated, updated.restaurant.value)
        && r.value.value == updated.(id := Some(id))
        && db.menuItems == old(db.menuItems)[id := r.value.value]
        && db.nextMenuItemId == old(db.nextMenuItemId)
        && db.orders == old(db.orders) && db.nextOrderId == old(db.nextOrderId)
        && db.users == old(db.users) && db.restaurants == old(db.restaurants)
    {
      if id !in db.menuItems {
        return Ok(None);
      }
      if updated.restaurant.None? {
        return Err(RestaurantInfoRequired);
      }
      var restaurantId := updated.restaurant.value;
      if restaurantId !in db.restaurants {
        return Err(RestaurantIdNotFound(restaurantId));
      }
      var existing := db.menuItems[id];
      MenuRowsAreStored(db);
      var taken := MenuRepository.ExistsByNameAndRestaurantId(db.MenuRows(), updated.name, restaurantId);
      assert taken <==> NameTaken(db.menuItems, updated.name, restaurantId);
      if (existing.name != updated.name || existing.restaurant != Some(restaurantId)) && taken {
        return Err(DuplicateMenuItemName(updated.name));
      }
      // The field-by-field copy: every field from `updated` but the id.
      var m := updated.(id := existing.id, restaurant := Some(restaurantId));
      CollisionCheckPreservesUniqueNames(db.menuItems, id, updated, restaurantId);
      db.menuItems := db.menuItems[id := m];
      r := Ok(Some(m));
    }

    /** deleteMenuItem: removes the item and reports its id, or fails naming
        it; the commit fails, and the removal is rolled back, while an order
        line still references the item. */
    method DeleteMenuItem(id: int) returns (r: Result<string>)
      requires db.Valid()
      modifies db
      ensures db.Valid()
      ensures id !in old(db.menuItems) ==> r == Err(MenuItemIdNotFound(id)) && unchanged(db)
      ensures id in old(db.menuItems) && MenuItemReferenced(old(db.orders), id) ==>
        r == Err(ForeignKeyViolation) && unchanged(db)
      ensures id in old(db.menuItems) && !MenuItemReferenced(old(db.orders), id) ==>
        && r == Ok("Menu item with ID " + DecimalString(id) + " has been deleted successfully.")
        && db.menuItems == old(db.menuItems) - {id}
        && db.nextMenuItemId == old(db.nextMenuItemId)
        && db.orders == old(db.orders) && db.nextOrderId == old(db.nextOrderId)
        && db.users == old(db.users) && db.restaurants == old(db.restaurants)
    {
      if id !in db.menuItems {
        return Err(MenuItemIdNotFound(id));
      }
      if MenuItemReferenced(db.orders, id) {
        return Err(ForeignKeyViolation);
      }
      db.menuItems := db.menuItems - {id};
      r := Ok("Menu item with ID " + DecimalString(id) + " has been deleted successfully.");
    }

    /** getMenuItemsByRestaurant: fails for an unknown restaurant, a sort
        property without text, or a bad page request; otherwise sorts
        descending exactly for "desc" in any case, runs the filtered query
        exactly when a filter is given, and selects the restaurant's items
        that pass every given filter. */
    function GetMenuItemsByRestaurant(restaurantId: int, page: int, size: int, sortBy: string, sortDir: string,
                                      filters: MenuRepository.MenuFilters): (r: Result<MenuListing>)
      reads db
      requires db.Valid()
      ensures restaurantId !in db.restaurants ==> r == Err(RestaurantIdNotFound(restaurantId))
      ensures restaurantId in db.restaurants && !HasText(sortBy) ==> r == Err(BlankSortProperty)
      ensures restaurantId in db.restaurants && HasText(sortBy) && page < 0 ==> r == Err(PageIndexNegative)
      ensures restaurantId in db.restaurants && HasText(sortBy) && 0 <= page && size < 1 ==> r == Err(PageSizeTooSmall)
      ensures r.Ok? <==> restaurantId in db.restaurants && HasText(sortBy) && 0 <= page && 1 <= size
      ensures r.Ok? ==> (r.value.sort.direction == Desc <==> SortDirIsDesc(sortDir)) && r.value.sort.property == sortBy
      ensures r.Ok? ==> (r.value.query.ByRestaurantWithFilters? <==> MenuRepository.AnyFilter(filters))
      ensures r.Ok? ==> r.value.page == page && r.value.size == size
      ensures r.Ok? ==> forall m :: m in r.value.matching <==>
        && (exists k :: k in db.menuItems && db.menuItems[k] == m)
        && m.restaurant == Some(restaurantId)
        && MenuRepository.MatchesMenuFilters(m, filters)
    {
      if restaurantId !in db.restaurants then Err(RestaurantIdNotFound(restaurantId))
      else if !HasText(sortBy) then Err(BlankSortProperty)
      else if page < 0 then Err(PageIndexNegative)
      else if size < 1 then Err(PageSizeTooSmall)
      else
        MenuRowsAreStored(db);
        QuerySelectionIsTransparent(db.MenuRows(), restaurantId, filters);
        var query := SelectQuery(filters);
        Ok(MenuListing(query, Sort(DirectionOf(sortDir), sortBy), page, size, RunQuery(query, db.MenuRows(), restaurantId)))
    }

    /** getMenuCategoriesByRestaurant: fails for an unknown restaurant, and
        otherwise lists each category of its items once. */
    function GetMenuCategoriesByRestaurant(restaurantId: int): (r: Result<seq<string>>)
      reads db
      requires db.Valid()
      ensures r.Err? <==> restaurantId !in db.restaurants
      ensures r.Err? ==> r.error == RestaurantIdNotFound(restaurantId)
      ensures r.Ok? ==> forall i, j :: 0 <= i < j < |r.value| ==> r.value[i] != r.value[j]
      ensures r.Ok? ==> forall c :: c in r.value <==>
        exists k :: k in db.menuItems && db.menuItems[k].restaurant == Some(restaurantId) && db.menuItems[k].category == c
    {
      if restaurantId !in db.restaurants then Err(RestaurantIdNotFound(restaurantId))
      else
        MenuRowsAreStored(db);
        Ok(MenuRepository.FindDistinctCategoriesByRestaurantId(db.MenuRows(), restaurantId))
    }

    /** getMenuItemById. */
    function GetMenuItemById(id: int): (r: Option<MenuItem>)
      reads db
      ensures r.Some? <==> id in db.menuItems
      ensures r.Some? ==> r.value == db.menuItems[id]
    {
      if id in db.menuItems then Some(db.menuItems[id]) else None
    }
  }
}
