/** The menu table's queries (MenuRepository): optional-equality filters,
    distinct categories, and lookup by (name, restaurant), as functions of the
    table's rows in key order. */
module MenuRepository {
  import opened Common
  import opened MenuItems

  /** The optional filters of the listing query; an absent one is SQL's
      `:param IS NULL`, which imposes nothing. */
  datatype MenuFilters = MenuFilters(
    category: Option<string>,
    isVegetarian: Option<bool>,
    isVegan: Option<bool>,
    containsGluten: Option<bool>,
    isAvailable: Option<bool>)

  const NoFilters: MenuFilters := MenuFilters(None, None, None, None, None)

  /** Some filter is supplied. */
  predicate AnyFilter(f: MenuFilters)
  {
    f.category.Some? || f.isVegetarian.Some? || f.isVegan.Some? || f.containsGluten.Some? || f.isAvailable.Some?
  }

  /** Each supplied filter equals the item's field. */
  predicate MatchesMenuFilters(m: MenuItem, f: MenuFilters)
  {
    && (f.category.None? || m.category == f.category.value)
    && (f.isVegetarian.None? || m.isVegetarian == f.isVegetarian.value)
    && (f.isVegan.None? || m.isVegan == f.isVegan.value)
    && (f.containsGluten.None? || m.containsGluten == f.containsGluten.value)
    && (f.isAvailable.None? || m.isAvailable == f.isAvailable.value)
  }

  /** findByRestaurantId: the items of the restaurant. */
  function FindByRestaurantId(rows: seq<MenuItem>, restaurantId: int): (r: seq<MenuItem>)
    ensures forall m :: m in r <==> m in rows && m.restaurant == Some(restaurantId)
  {
    Filter(rows, (m: MenuItem) => m.restaurant == Some(restaurantId))
  }

  /** findByRestaurantIdWithFilters: the restaurant's items whose fields equal
      every filter supplied. */
  function FindByRestaurantIdWithFilters(rows: seq<MenuItem>, restaurantId: int, f: MenuFilters): (r: seq<MenuItem>)
    ensures |r| <= |rows|
    ensures forall m :: m in r <==>
      && m in rows
      && m.restaurant == Some(restaurantId)
      && (f.category.Some? ==> m.category == f.category.value)
      && (f.isVegetarian.Some? ==> m.isVegetarian == f.isVegetarian.value)
      && (f.isVegan.Some? ==> m.isVegan == f.isVegan.value)
      && (f.containsGluten.Some? ==> m.containsGluten == f.containsGluten.value)
      && (f.isAvailable.Some? ==> m.isAvailable == f.isAvailable.value)
  {
    Filter(rows, (m: MenuItem) => m.restaurant == Some(restaurantId) && MatchesMenuFilters(m, f))
  }

  /** With every filter absent the filtered query is the plain one, row for
      row and in the same order. */
  lemma NoFiltersIsAllMenuItems(rows: seq<MenuItem>, restaurantId: int)
    ensures FindByRestaurantIdWithFilters(rows, restaurantId, NoFilters) == FindByRestaurantId(rows, restaurantId)
  {
    FilterSameCondition(rows,
      (m: MenuItem) => m.restaurant == Some(restaurantId) && MatchesMenuFilters(m, NoFilters),
      (m: MenuItem) => m.restaurant == Some(restaurantId));
  }

  /** The category column of a run of items. */
  function Categories(items: seq<MenuItem>): (r: seq<string>)
    ensures |r| == |items|
    ensures forall i :: 0 <= i < |items| ==> r[i] == items[i].category
    decreases |items|
  {
    if items == [] then [] else [items[0].category] + Categories(items[1..])
  }

  /** findDistinctCategoriesByRestaurantId: each category of the restaurant's
      items, once. */
  function FindDistinctCategoriesByRestaurantId(rows: seq<MenuItem>, restaurantId: int): (r: seq<string>)
    ensures forall i, j :: 0 <= i < j < |r| ==> r[i] != r[j]
    ensures forall c :: c in r <==> exists m :: m in rows && m.restaurant == Some(restaurantId) && m.category == c
  {
    var own := FindByRestaurantId(rows, restaurantId);
    var cats := Categories(own);
    assert forall c :: c in cats <==> exists m :: m in own && m.category == c by {
      forall c ensures c in cats <==> exists m :: m in own && m.category == c {
        if c in cats {
          var i :| 0 <= i < |cats| && cats[i] == c;
          assert own[i] in own;
        }
        if exists m :: m in own && m.category == c {
          var m :| m in own && m.category == c;
          var i :| 0 <= i < |own| && own[i] == m;
          assert cats[i] == c;
        }
      }
    }
    Distinct(cats)
  }

  /** The row matches a (name, restaurant) lookup. */
  predicate NamedIn(m: MenuItem, name: string, restaurantId: int)
  {
    m.name == name && m.restaurant == Some(restaurantId)
  }

  /** existsByNameAndRestaurantId. */
  function ExistsByNameAndRestaurantId(rows: seq<MenuItem>, name: string, restaurantId: int): (b: bool)
    ensures b <==> exists m :: m in rows && m.name == name && m.restaurant == Some(restaurantId)
  {
    var hits := Filter(rows, (m: MenuItem) => NamedIn(m, name, restaurantId));
    assert hits != [] ==> hits[0] in hits;
    hits != []
  }

  /** findByNameAndRestaurantId: the one matching row, none, or the failure a
      single-result query raises when several rows match. */
  function FindByNameAndRestaurantId(rows: seq<MenuItem>, name: string, restaurantId: int): (r: Result<Option<MenuItem>>)
    ensures r == Ok(None) <==> forall m :: m in rows ==> !NamedIn(m, name, restaurantId)
    ensures r.Ok? && r.value.Some? ==>
      && r.value.value in rows && NamedIn(r.value.value, name, restaurantId)
      && forall m :: m in rows && NamedIn(m, name, restaurantId) ==> m == r.value.value
    ensures r.Err? ==> r.error == NonUniqueResult && exists m :: m in rows && NamedIn(m, name, restaurantId)
  {
    var hits := Filter(rows, (m: MenuItem) => NamedIn(m, name, restaurantId));
    if |hits| == 0 then Ok(None)
    else
      assert hits[0] in hits;
      if |hits| == 1 then
        assert forall m :: m in hits ==> m == hits[0];
        Ok(Some(hits[0]))
      else Err(NonUniqueResult)
  }

  /** The existence check holds exactly when the lookup finds something. */
  lemma ExistsIffFound(rows: seq<MenuItem>, name: string, restaurantId: int)
    ensures ExistsByNameAndRestaurantId(rows, name, restaurantId) <==> FindByNameAndRestaurantId(rows, name, restaurantId) != Ok(None)
  {
  }

  /** No two rows share a (name, restaurant) pair. */
  predicate NamesUnique(rows: seq<MenuItem>)
  {
    forall i, j :: 0 <= i < j < |rows| && rows[i].restaurant.Some? && rows[i].restaurant == rows[j].restaurant
      ==> rows[i].name != rows[j].name
  }

  /** Over rows with unique (name, restaurant) pairs the matches number at most one. */
  lemma {:induction false} UniqueNamesAtMostOneHit(rows: seq<MenuItem>, name: string, restaurantId: int)
    requires NamesUnique(rows)
    ensures |Filter(rows, (m: MenuItem) => NamedIn(m, name, restaurantId))| <= 1
    decreases |rows|
  {
    if rows != [] {
      var tail := rows[1..];
      assert NamesUnique(tail) by {
        forall i, j | 0 <= i < j < |tail| && tail[i].restaurant.Some? && tail[i].restaurant == tail[j].restaurant
          ensures tail[i].name != tail[j].name
        {
          assert tail[i] == rows[i + 1] && tail[j] == rows[j + 1];
        }
      }
      UniqueNamesAtMostOneHit(tail, name, restaurantId);
      if NamedIn(rows[0], name, restaurantId) {
        forall m | m in tail ensures !NamedIn(m, name, restaurantId) {
          var j :| 0 <= j < |tail| && tail[j] == m;
          assert rows[j + 1] == m;
        }
        FilterNoMatch(tail, (m: MenuItem) => NamedIn(m, name, restaurantId));
      }
    }
  }

  /** Over rows with unique (name, restaurant) pairs the lookup never fails. */
  lemma UniqueNamesSingleResult(rows: seq<MenuItem>, name: string, restaurantId: int)
    requires NamesUnique(rows)
    ensures FindByNameAndRestaurantId(rows, name, restaurantId).Ok?
  {
    UniqueNamesAtMostOneHit(rows, name, restaurantId);
  }
}
