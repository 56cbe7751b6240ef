/** A dish of a restaurant's menu (entity MenuItem): its fields and defaults,
    the dietary-requirement test, and its equality and hash code. */
module MenuItems {
  import opened Common

  /** A menu item. Money is in cents; the owning restaurant is held by its id. */
  datatype MenuItem = MenuItem(
    id: Option<int>,
    name: string,
    price: int,
    description: Option<string>,
    category: string,
    isAvailable: bool,
    isVegetarian: bool,
    isVegan: bool,
    containsGluten: bool,
    restaurant: Option<int>,
    imageUrl: Option<string>)

  /** The four-argument constructor: the given fields, no id yet, and the
      field defaults (available, not vegetarian, not vegan, no gluten). */
  function NewMenuItem(name: string, price: int, category: string, restaurant: Option<int>): (m: MenuItem)
    ensures m.id == None && m.name == name && m.price == price
    ensures m.category == category && m.restaurant == restaurant
    ensures m.description == None && m.imageUrl == None
    ensures m.isAvailable && !m.isVegetarian && !m.isVegan && !m.containsGluten
  {
    MenuItem(None, name, price, None, category, true, false, false, false, restaurant, None)
  }

  // ---------------------------------------------------------------------------
  // Dietary requirements

  /** The item passes a vegetarian, a vegan and a gluten-free request, each
      asked for or not. */
  predicate MatchesDietaryRequirements(m: MenuItem, vegetarian: bool, vegan: bool, glutenFree: bool)
  {
    (!vegetarian || m.isVegetarian) && (!vegan || m.isVegan) && (!glutenFree || !m.containsGluten)
  }

  /** The three requirements a customer may ask for. */
  datatype Diet = Vegetarian | Vegan | GlutenFree

  /** Whether the item meets one requirement. */
  predicate Meets(m: MenuItem, d: Diet)
  {
    match d
    case Vegetarian => m.isVegetarian
    case Vegan => m.isVegan
    case GlutenFree => !m.containsGluten
  }

  /** The set of requirements a call with these three flags asks for. */
  function Requested(vegetarian: bool, vegan: bool, glutenFree: bool): (ds: set<Diet>)
    ensures Vegetarian in ds <==> vegetarian
    ensures Vegan in ds <==> vegan
    ensures GlutenFree in ds <==> glutenFree
  {
    (if vegetarian then {Vegetarian} else {}) + (if vegan then {Vegan} else {})
      + (if glutenFree then {GlutenFree} else {})
  }

  /** The test is true exactly when every requested requirement is met. */
  lemma MatchesIffAllRequestedMet(m: MenuItem, vegetarian: bool, vegan: bool, glutenFree: bool)
    ensures MatchesDietaryRequirements(m, vegetarian, vegan, glutenFree)
        <==> forall d :: d in Requested(vegetarian, vegan, glutenFree) ==> Meets(m, d)
  {
    var ds := Requested(vegetarian, vegan, glutenFree);
    if MatchesDietaryRequirements(m, vegetarian, vegan, glutenFree) {
      forall d | d in ds ensures Meets(m, d) {
        match d
        case Vegetarian =>
        case Vegan =>
        case GlutenFree =>
      }
    } else if vegetarian && !m.isVegetarian {
      assert Vegetarian in ds && !Meets(m, Vegetarian);
    } else if vegan && !m.isVegan {
      assert Vegan in ds && !Meets(m, Vegan);
    } else {
      assert GlutenFree in ds && !Meets(m, GlutenFree);
    }
  }

  /** Asking for nothing matches every item. */
  lemma NoRequirementsMatchAll(m: MenuItem)
    ensures MatchesDietaryRequirements(m, false, false, false)
  {
  }

  /** Asking for more can never turn a failing item into a matching one. */
  lemma MoreRequirementsNeverHelp(m: MenuItem, v1: bool, g1: bool, f1: bool, v2: bool, g2: bool, f2: bool)
    requires Requested(v1, g1, f1) <= Requested(v2, g2, f2)
    requires MatchesDietaryRequirements(m, v2, g2, f2)
    ensures MatchesDietaryRequirements(m, v1, g1, f1)
  {
    MatchesIffAllRequestedMet(m, v1, g1, f1);
    MatchesIffAllRequestedMet(m, v2, g2, f2);
  }

  // ---------------------------------------------------------------------------
  // equals / hashCode

  /** MenuItem.equals: the same id, name and restaurant; price, category,
      flags, description and image play no part. */
  predicate Equals(a: MenuItem, b: MenuItem)
  {
    a.id == b.id && a.name == b.name && a.restaurant == b.restaurant
  }

  /** equals is an equivalence relation. */
  lemma EqualsIsEquivalence(a: MenuItem, b: MenuItem, c: MenuItem)
    ensures Equals(a, a)
    ensures Equals(a, b) ==> Equals(b, a)
    ensures Equals(a, b) && Equals(b, c) ==> Equals(a, c)
  {
  }

  /** Editing anything but id, name and restaurant keeps an item equal to itself. */
  lemma EqualsIgnoresOtherFields(m: MenuItem, price: int, category: string, available: bool)
    ensures Equals(m, m.(price := price, category := category, isAvailable := available))
  {
  }

  /** The UTF-16 code units of a string, which is what java.lang.String holds. */
  function Utf16Units(s: string): (u: seq<int>)
    ensures |s| <= |u|
    ensures forall i :: 0 <= i < |u| ==> 0 <= u[i] < 0x1_0000
  {
    if s == [] then []
    else
      var c := s[0] as int;
      (if c < 0x1_0000 then [c]
       else [0xD800 + (c - 0x1_0000) / 0x400, 0xDC00 + (c - 0x1_0000) % 0x400])
      + Utf16Units(s[1..])
  }

  /** String.hashCode over the units still to be hashed, from accumulator `h`. */
  function UnitsHash(h: Int32, units: seq<int>): Int32
    requires forall i :: 0 <= i < |units| ==> 0 <= units[i] < 0x1_0000
    decreases |units|
  {
    if units == [] then h else UnitsHash(HashStep(h, units[0]), units[1..])
  }

  /** String.hashCode: s[0]*31^(n-1) + .. + s[n-1] in `int` arithmetic. */
  function StringHash(s: string): Int32
  {
    UnitsHash(0, Utf16Units(s))
  }

  /** Objects.hashCode of a nullable Long. */
  function OptionLongHash(v: Option<int>): Int32
  {
    if v.Some? then LongHash(v.value) else 0
  }

  /** MenuItem.hashCode = Objects.hash(id, name, restaurant). Restaurant does
      not override hashCode; the model identifies a restaurant by its id and
      hashes that id in its place. */
  function HashCode(m: MenuItem): Int32
  {
    HashStep(HashStep(HashStep(1, OptionLongHash(m.id)), StringHash(m.name)), OptionLongHash(m.restaurant))
  }

  /** Equal items have equal hash codes, as the hashCode contract requires. */
  lemma HashCodeAgreesWithEquals(a: MenuItem, b: MenuItem)
    requires Equals(a, b)
    ensures HashCode(a) == HashCode(b)
  {
  }
}
