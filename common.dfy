/** Shared vocabulary of the food-delivery model: nullable values, error outcomes,
    Java's 32-bit int arithmetic, decimal rendering of ids, and the sequence
    helpers that the repositories' queries are built from. */
module Common {

  /** A Java reference or boxed value that may be null. */
  datatype Option<+T> = None | Some(value: T)

  /** The exceptions the services raise, one constructor per message. */
  datatype Error =
    | MissingReference               // a null entity reference dereferenced, or a null id given to findById
    | UserNotFound                   // "User not found"
    | RestaurantNotFound             // "Restaurant not found" (order service)
    | RestaurantIdNotFound(restaurantId: int)  // "Error: Restaurant with ID .. not found." (menu service)
    | RestaurantInfoRequired         // "Error: Restaurant information is required."
    | MenuItemNotFound(menuItemId: int)        // "MenuItem not found: .." (order service)
    | MenuItemIdNotFound(menuItemId: int)      // "Error: Menu item with ID .. not found." (menu service)
    | DuplicateMenuItemName(name: string)      // "Error: Menu item '..' already exists in this restaurant."
    | OrderNotFound(orderId: int)    // "Order not found: .."
    | CannotUpdateCancelledOrder     // "Cannot update status of a cancelled order"
    | CannotUpdateDeliveredOrder     // "Cannot update status of a delivered order"
    | CannotCancelDeliveredOrder     // "Cannot cancel a delivered order"
    | UnsupportedOperation           // a mutator called on an unmodifiable list view
    | PageIndexNegative              // PageRequest.of with page < 0
    | PageSizeTooSmall               // PageRequest.of with size < 1
    | NonUniqueResult                // a single-result query that matched several rows
    | BlankSortProperty              // Sort.by with a property that has no text
    | NotNullViolation               // a row written with null in a NOT NULL column
    | ForeignKeyViolation            // a row deleted while another row still references it

  /** A value, or the exception that replaced it. */
  datatype Result<+T> = Ok(value: T) | Err(error: Error)

  // ---------------------------------------------------------------------------
  // Java `int`

  const TWO_32: int := 0x1_0000_0000
  const TWO_64: int := 0x1_0000_0000_0000_0000

  type Int32 = x: int | -0x8000_0000 <= x < 0x8000_0000

  /** The Java `int` that a mathematical integer truncates to: the unique
      value of the signed 32-bit range congruent to `x` modulo 2^32. */
  function Wrap32(x: int): (r: Int32)
    ensures (r - x) % TWO_32 == 0
    ensures -0x8000_0000 <= x < 0x8000_0000 ==> r == x
  {
    var m := x % TWO_32;
    if m < 0x8000_0000 then m else m - TWO_32
  }

  /** Java `int` addition, which wraps around on overflow. */
  function AddInt32(a: Int32, b: Int32): (r: Int32)
    ensures (r - (a + b)) % TWO_32 == 0
  {
    Wrap32(a + b)
  }

  /** Java `a * 31 + b` on `int`, the step of every polynomial hash. */
  function HashStep(a: Int32, b: Int32): (r: Int32)
    ensures (r - (31 * a + b)) % TWO_32 == 0
  {
    Wrap32(31 * a + b)
  }

  /** Long.hashCode: the low 32 bits of `v ^ (v >>> 32)` of the 64-bit
      two's-complement value, read as a signed `int`. */
  function LongHash(v: int): Int32
  {
    var u := v % TWO_64;
    var hi := u / TWO_32;
    var lo := u % TWO_32;
    Wrap32(((lo as bv32) ^ (hi as bv32)) as int)
  }

  // ---------------------------------------------------------------------------
  // Long.toString, used where an id is concatenated into a message

  function Digit(d: nat): (c: char)
    requires d < 10
  {
    "0123456789"[d]
  }

  function DigitValue(c: char): int
  {
    c as int - '0' as int
  }

  /** The decimal digits of `n`, most significant first, without leading zeros. */
  function NatDigits(n: nat): (s: string)
    ensures 0 < |s|
    ensures forall i :: 0 <= i < |s| ==> '0' <= s[i] <= '9'
    decreases n
  {
    if n < 10 then [Digit(n)] else NatDigits(n / 10) + [Digit(n % 10)]
  }

  /** The number a string of decimal digits denotes. */
  function DecimalValue(s: string): int
    decreases |s|
  {
    if s == [] then 0 else 10 * DecimalValue(s[..|s| - 1]) + DigitValue(s[|s| - 1])
  }

  /** Long.toString of `n`. */
  function DecimalString(n: int): (s: string)
    ensures 0 < |s|
  {
    if n < 0 then "-" + NatDigits(-n) else NatDigits(n)
  }

  /** Reading the rendered digits back gives the number: the rendering loses nothing. */
  lemma {:induction false} NatDigitsRoundTrip(n: nat)
    ensures DecimalValue(NatDigits(n)) == n
    decreases n
  {
    if n >= 10 {
      NatDigitsRoundTrip(n / 10);
      var s := NatDigits(n);
      assert s[..|s| - 1] == NatDigits(n / 10);
    }
  }

  /** Long.parseLong of a rendered id: an optional minus sign, then digits. */
  function SignedDecimalValue(s: string): int
  {
    if 0 < |s| && s[0] == '-' then -DecimalValue(s[1..]) else DecimalValue(s)
  }

  /** Parsing the rendering of any id gives the id back, so distinct ids render
      to distinct strings and a message names its id unambiguously. */
  lemma DecimalStringRoundTrip(n: int)
    ensures SignedDecimalValue(DecimalString(n)) == n
  {
    var s := DecimalString(n);
    if n < 0 {
      var d := NatDigits(-n);
      assert s == "-" + d;
      assert s[1..] == d;
      NatDigitsRoundTrip(-n);
    } else {
      var d := NatDigits(n);
      assert s == d;
      assert s[0] != '-' by { assert '0' <= d[0]; }
      NatDigitsRoundTrip(n);
    }
  }

  // ---------------------------------------------------------------------------
  // Sequence helpers behind the declarative queries

  /** The rows of `s` satisfying `p`, in their original order (a WHERE clause). */
  function Filter<T(!new)>(s: seq<T>, p: T -> bool): (r: seq<T>)
    ensures |r| <= |s|
    ensures forall x :: x in r <==> x in s && p(x)
    decreases |s|
  {
    if s == [] then [] else (if p(s[0]) then [s[0]] else []) + Filter(s[1..], p)
  }

  /** A WHERE clause distributes over the concatenation of two row sets. */
  lemma {:induction false} FilterConcat<T(!new)>(a: seq<T>, b: seq<T>, p: T -> bool)
    ensures Filter(a + b, p) == Filter(a, p) + Filter(b, p)
    decreases |a|
  {
    if a != [] {
      var head := if p(a[0]) then [a[0]] else [];
      assert (a + b)[0] == a[0];
      assert (a + b)[1..] == a[1..] + b;
      FilterConcat(a[1..], b, p);
      calc {
        Filter(a + b, p);
        head + Filter(a[1..] + b, p);
        head + (Filter(a[1..], p) + Filter(b, p));
        (head + Filter(a[1..], p)) + Filter(b, p);
        Filter(a, p) + Filter(b, p);
      }
    } else {
      assert a + b == b;
    }
  }

  /** A WHERE clause no row satisfies selects nothing. */
  lemma {:induction false} FilterNoMatch<T(!new)>(s: seq<T>, p: T -> bool)
    requires forall x :: x in s ==> !p(x)
    ensures Filter(s, p) == []
    decreases |s|
  {
    if s != [] {
      assert s[0] in s;
      assert forall x :: x in s[1..] ==> x in s;
      FilterNoMatch(s[1..], p);
    }
  }

  /** Two conditions that agree on every row select the same rows. */
  lemma {:induction false} FilterSameCondition<T(!new)>(s: seq<T>, p: T -> bool, q: T -> bool)
    requires forall x :: x in s ==> p(x) == q(x)
    ensures Filter(s, p) == Filter(s, q)
    decreases |s|
  {
    if s != [] {
      assert forall x :: x in s[1..] ==> x in s;
      FilterSameCondition(s[1..], p, q);
    }
  }

  /** A table in primary-key order: the rows stored under the keys lo, lo+1, .., hi-1. */
  function Scan<T(!new)>(m: map<int, T>, lo: int, hi: int): (r: seq<T>)
    ensures forall x :: x in r <==> exists k :: lo <= k < hi && k in m && m[k] == x
    decreases hi - lo
  {
    if lo >= hi then []
    else (if lo in m then [m[lo]] else []) + Scan(m, lo + 1, hi)
  }

  /** Any two positions of a scan hold the rows of two distinct keys, the
      earlier position the smaller key. */
  lemma {:induction false} ScanPositions<T(!new)>(m: map<int, T>, lo: int, hi: int, i: int, j: int)
    requires 0 <= i < j < |Scan(m, lo, hi)|
    ensures exists ki, kj :: lo <= ki < kj < hi && ki in m && kj in m && Scan(m, lo, hi)[i] == m[ki] && Scan(m, lo, hi)[j] == m[kj]
    decreases hi - lo
  {
    var r, t := Scan(m, lo, hi), Scan(m, lo + 1, hi);
    var head := if lo in m then [m[lo]] else [];
    assert r == head + t;
    var h := |head|;
    assert r[j] == t[j - h];
    if i < h {
      assert t[j - h] in t;
      var kj :| lo + 1 <= kj < hi && kj in m && m[kj] == r[j];
      assert r[i] == m[lo];
    } else {
      ScanPositions(m, lo + 1, hi, i - h, j - h);
      var ki, kj :| lo + 1 <= ki < kj < hi && ki in m && kj in m && t[i - h] == m[ki] && t[j - h] == m[kj];
      assert r[i] == m[ki];
    }
  }

  /** The elements of `s`, each exactly once (SELECT DISTINCT). */
  function Distinct<T(==,!new)>(s: seq<T>): (r: seq<T>)
    ensures forall x :: x in r <==> x in s
    ensures forall i, j :: 0 <= i < j < |r| ==> r[i] != r[j]
    decreases |s|
  {
    if s == [] then []
    else if s[0] in s[1..] then Distinct(s[1..])
    else [s[0]] + Distinct(s[1..])
  }

  /** `s` without its first element equal to `x` (java.util.List.remove(Object)). */
  function RemoveFirst<T(==)>(s: seq<T>, x: T): (r: seq<T>)
    ensures x !in s ==> r == s
    ensures x in s ==> |r| == |s| - 1 && multiset(r) == multiset(s) - multiset{x}
    decreases |s|
  {
    if s == [] then []
    else if s[0] == x then
      assert s == [s[0]] + s[1..];
      s[1..]
    else
      assert s == [s[0]] + s[1..];
      [s[0]] + RemoveFirst(s[1..], x)
  }

  /** Collections.unmodifiableList: a read-only view of a list. */
  datatype UnmodifiableList<T> = UnmodifiableList(elements: seq<T>)

  /** clear() called on such a view: it refuses, whatever the view holds. */
  function ClearView<T>(view: UnmodifiableList<T>): Result<UnmodifiableList<T>>
  {
    Err(UnsupportedOperation)
  }

  // ---------------------------------------------------------------------------
  // Spring Data paging

  /** One page of a query result, with the count of all matching rows. */
  datatype Page<T> = Page(content: seq<T>, number: nat, size: nat, totalElements: nat)

  /** PageRequest.of(page, size) applied to the full result `rows`: the slice
      [page*size, page*size+size) clipped to the result. */
  function PageOf<T>(rows: seq<T>, page: int, size: int): (r: Result<Page<T>>)
    ensures page < 0 ==> r == Err(PageIndexNegative)
    ensures 0 <= page && size < 1 ==> r == Err(PageSizeTooSmall)
    ensures r.Ok? <==> 0 <= page && 1 <= size
    ensures r.Ok? ==> r.value.totalElements == |rows| && r.value.number == page && r.value.size == size
    ensures r.Ok? ==>
      |r.value.content| == (if page * size + size <= |rows| then size else if page * size < |rows| then |rows| - page * size else 0)
    ensures r.Ok? ==> forall i :: 0 <= i < |r.value.content| ==>
      page * size + i < |rows| && r.value.content[i] == rows[page * size + i]
  {
    if page < 0 then Err(PageIndexNegative)
    else if size < 1 then Err(PageSizeTooSmall)
    else
      var from := if page * size < |rows| then page * size else |rows|;
      var to := if page * size + size < |rows| then page * size + size else |rows|;
      Ok(Page(rows[from..to], page, size, |rows|))
  }

  /** Every row of a result is on exactly the page its position says, so
      walking the pages 0, 1, 2, .. visits every row once. */
  lemma RowOnItsPage<T>(rows: seq<T>, size: int, j: nat)
    requires 1 <= size && j < |rows|
    ensures PageOf(rows, j / size, size).Ok?
    ensures j % size < |PageOf(rows, j / size, size).value.content|
    ensures PageOf(rows, j / size, size).value.content[j % size] == rows[j]
  {
    var p := j / size;
    assert p * size + j % size == j;
    assert p * size <= j;
  }
}
