/**
 * The product catalogue queries. The products table is a sequence of rows in
 * storage order; each query is a filter, an ordering and a window over it.
 */
module Catalog {
  import opened Wrappers
  import opened ShopTypes
  import opened ProductSort
  import Categories

  const ProductsPerPage := 12
  const FeaturedLimit := 8
  const Uncategorized := "uncategorized"
  /** The error code for "no row" from a single-row query. */
  const NoRowCode := "PGRST116"
  const LoadFailedMessage := "상품을 불러오는 중 오류가 발생했습니다."

  // ------------------------------------------------------------ text search

  /** Case folding of the case-insensitive match, on ASCII letters. */
  function Lower(c: char): char {
    if 'A' <= c <= 'Z' then (c as int + 32) as char else c
  }

  function LowerString(s: string): (r: string)
    ensures |r| == |s| && forall i :: 0 <= i < |s| ==> r[i] == Lower(s[i])
  {
    seq(|s|, i requires 0 <= i < |s| => Lower(s[i]))
  }

  /** `needle` occurs in `hay`, tried at each position from the left. */
  function Occurs(needle: string, hay: string): bool
    decreases |hay|
  {
    (|needle| <= |hay| && hay[..|needle|] == needle) || (hay != [] && Occurs(needle, hay[1..]))
  }

  /** `needle` sits in `hay` at position `i`. */
  predicate OccursAt(needle: string, hay: string, i: int) {
    0 <= i <= |hay| - |needle| && hay[i..i + |needle|] == needle
  }

  lemma OccursExactly(needle: string, hay: string)
    ensures Occurs(needle, hay) <==> exists i :: OccursAt(needle, hay, i)
  {
    if Occurs(needle, hay) {
      OccursHasPosition(needle, hay);
    }
    if exists i :: OccursAt(needle, hay, i) {
      var i :| OccursAt(needle, hay, i);
      PositionGivesOccurs(needle, hay, i);
    }
  }

  lemma {:induction false} OccursHasPosition(needle: string, hay: string)
    requires Occurs(needle, hay)
    ensures exists i :: OccursAt(needle, hay, i)
    decreases |hay|
  {
    if |needle| <= |hay| && hay[..|needle|] == needle {
      assert OccursAt(needle, hay, 0);
    } else {
      OccursHasPosition(needle, hay[1..]);
      var i :| OccursAt(needle, hay[1..], i);
      assert hay[1..][i..i + |needle|] == hay[i + 1..i + 1 + |needle|];
      assert OccursAt(needle, hay, i + 1);
    }
  }

  lemma {:induction false} PositionGivesOccurs(needle: string, hay: string, i: int)
    requires OccursAt(needle, hay, i)
    ensures Occurs(needle, hay)
    decreases i
  {
    if i > 0 {
      assert hay[1..][i - 1..i - 1 + |needle|] == hay[i..i + |needle|];
      PositionGivesOccurs(needle, hay[1..], i - 1);
    }
  }

  /** `ilike '%search%'`: the search text occurs in the name, ignoring case. */
  predicate NameContains(name: string, search: string) {
    Occurs(LowerString(search), LowerString(name))
  }

  // ---------------------------------------------------------------- filters

  /** A string parameter counts only when it is present and not empty. */
  predicate Given(s: Option<string>) {
    s.Some? && s.value != ""
  }

  /** The row filter: active, in the category if one is given, and named like the search if one is given. */
  predicate Matches(p: Product, category: Option<string>, search: Option<string>) {
    && p.isActive
    && (!Given(category) || p.category == Some(category.value))
    && (!Given(search) || NameContains(p.name, search.value))
  }

  function Filter(rows: seq<Product>, category: Option<string>, search: Option<string>): (r: seq<Product>)
    ensures forall p :: p in r <==> p in rows && Matches(p, category, search)
    ensures multiset(r) <= multiset(rows)
    ensures |r| <= |rows|
  {
    if rows == [] then []
    else
      var rest := Filter(rows[1..], category, search);
      assert rows == [rows[0]] + rows[1..];
      if Matches(rows[0], category, search) then [rows[0]] + rest else rest
  }

  // ----------------------------------------------------------------- paging

  /** The rows at 0-based positions `from` through `to` that exist. */
  function Window(rows: seq<Product>, from: int, to: int): (r: seq<Product>)
    ensures |r| <= Max(0, to - from + 1)
    ensures from >= 0 ==> |r| == Max(0, Min(|rows|, to + 1) - from)
    ensures from >= 0 ==> forall i :: 0 <= i < |r| ==> r[i] == rows[from + i]
  {
    var lo := Max(0, from);
    var hi := Min(|rows|, to + 1);
    if lo >= hi then [] else rows[lo..hi]
  }

  function PageStart(page: int, limit: int): int {
    (page - 1) * limit
  }

  function PageEnd(page: int, limit: int): int {
    PageStart(page, limit) + limit - 1
  }

  /** `Math.ceil(total / limit)`; a zero limit gives no finite number. */
  function TotalPages(total: nat, limit: int): Option<int> {
    if limit == 0 then None
    else if limit > 0 then Some((total + limit - 1) / limit)
    else Some(-(total / -limit))
  }

  lemma MulMonotone(a: int, b: int, c: int)
    requires a <= b && c >= 0
    ensures a * c <= b * c
  {
    assert b * c - a * c == (b - a) * c;
  }

  /** For a positive limit the page count is the least number of pages that holds every row. */
  lemma TotalPagesIsCeiling(total: nat, limit: int)
    requires limit >= 1
    ensures var n := TotalPages(total, limit).value;
      && n >= 0 && n * limit >= total
      && (total == 0 ==> n == 0)
      && (total > 0 ==> (n - 1) * limit < total)
  {
    var n := (total + limit - 1) / limit;
    var r := (total + limit - 1) % limit;
    assert total + limit - 1 == n * limit + r && 0 <= r < limit;
    assert (n - 1) * limit == n * limit - limit;
    if n < 0 {
      MulMonotone(n, -1, limit);
    }
    if total == 0 && n >= 1 {
      MulMonotone(1, n, limit);
    }
  }

  /** Page `page` holds at most `limit` rows, and is non-empty exactly for pages 1 through the page count. */
  lemma PageSizeAndRange(rows: seq<Product>, page: int, limit: int)
    requires limit >= 1 && page >= 1
    ensures var w := Window(rows, PageStart(page, limit), PageEnd(page, limit));
      && |w| <= limit
      && (w != [] <==> page <= TotalPages(|rows|, limit).value)
  {
    TotalPagesIsCeiling(|rows|, limit);
    var n := TotalPages(|rows|, limit).value;
    var start := PageStart(page, limit);
    MulMonotone(0, page - 1, limit);
    assert start >= 0;
    assert PageEnd(page, limit) - start + 1 == limit;
    if page <= n {
      MulMonotone(page - 1, n - 1, limit);
      assert start < |rows|;
    } else {
      MulMonotone(n, page - 1, limit);
      assert start >= |rows|;
    }
  }

  /** Consecutive pages are adjacent and disjoint: together they are the window over both. */
  lemma ConsecutivePagesAreAdjacent(rows: seq<Product>, page: int, limit: int)
    requires limit >= 1 && page >= 1
    ensures Window(rows, PageStart(page, limit), PageEnd(page, limit))
            + Window(rows, PageStart(page + 1, limit), PageEnd(page + 1, limit))
         == Window(rows, PageStart(page, limit), PageEnd(page + 1, limit))
  {
    var a := PageStart(page, limit);
    PageStartNotNegative(page, limit);
    assert PageStart(page + 1, limit) == a + limit by {
      assert page * limit == (page - 1) * limit + limit;
    }
    assert PageEnd(page, limit) == a + limit - 1;
    assert PageEnd(page + 1, limit) == a + 2 * limit - 1;
    WindowsAdjacent(rows, a, limit);
  }

  /** Two windows of `limit` positions side by side make one window of twice that. */
  lemma WindowsAdjacent(rows: seq<Product>, a: int, limit: int)
    requires a >= 0 && limit >= 1
    ensures Window(rows, a, a + limit - 1) + Window(rows, a + limit, a + 2 * limit - 1) == Window(rows, a, a + 2 * limit - 1)
  {
    if a < |rows| && a + limit < |rows| {
      assert rows[a..a + limit] + rows[a + limit..Min(|rows|, a + 2 * limit)] == rows[a..Min(|rows|, a + 2 * limit)];
    }
  }

  // ------------------------------------------------------------ getProducts

  datatype ListParams = ListParams(page: Option<int>, category: Option<string>, sort: Option<string>,
                                   search: Option<string>, limit: Option<int>)

  datatype ListResponse = ListResponse(products: seq<Product>, total: nat, page: int, totalPages: Option<int>, limit: int)

  /** `getProducts(params)` over the products table. */
  function GetProducts(rows: seq<Product>, params: ListParams): ListResponse {
    var page := params.page.GetOr(1);
    var sort := params.sort.GetOr("latest");
    var limit := params.limit.GetOr(ProductsPerPage);
    var matched := Filter(rows, params.category, params.search);
    var ordered := SortBy(SortKeyOf(sort), matched);
    var from := PageStart(page, limit);
    ListResponse(Window(ordered, from, from + limit - 1), |matched|, page, TotalPages(|matched|, limit), limit)
  }

  /** With no parameters: page 1 of 12 products, newest first. */
  lemma GetProductsDefaults(rows: seq<Product>)
    ensures var r := GetProducts(rows, ListParams(None, None, None, None, None));
      && r.page == 1 && r.limit == 12
      && r.products == Window(SortBy(Latest, Filter(rows, None, None)), 0, 11)
  {
  }

  /** A window over an ordered sequence is ordered and holds only elements of it. */
  lemma WindowOfSorted(key: SortKey, s: seq<Product>, from: int, to: int)
    requires from >= 0 && SortedBy(key, s)
    ensures var w := Window(s, from, to);
      && SortedBy(key, w)
      && forall p :: p in w ==> p in s
  {
    var w := Window(s, from, to);
    forall i, j | 0 <= i < j < |w| ensures !Before(key, w[j], w[i]) {
      assert w[i] == s[from + i] && w[j] == s[from + j];
    }
    forall p | p in w ensures p in s {
      var i :| 0 <= i < |w| && w[i] == p;
      assert s[from + i] == p;
    }
  }

  /** The ordered matches a listing pages through. */
  function Ordered(rows: seq<Product>, params: ListParams): seq<Product> {
    SortBy(SortKeyOf(params.sort.GetOr("latest")), Filter(rows, params.category, params.search))
  }

  /** The first row of a page with a positive number and limit is not before the start. */
  lemma PageStartNotNegative(page: int, limit: int)
    requires page >= 1 && limit >= 1
    ensures PageStart(page, limit) >= 0
  {
    MulMonotone(0, page - 1, limit);
  }

  /** A page holds at most `limit` products, `total` counts all matches and the page count follows from it. */
  lemma GetProductsCounts(rows: seq<Product>, params: ListParams)
    requires params.page.GetOr(1) >= 1 && params.limit.GetOr(ProductsPerPage) >= 1
    ensures var r := GetProducts(rows, params);
      var matched := Filter(rows, params.category, params.search);
      && |r.products| <= r.limit
      && r.total == |matched|
      && r.totalPages == TotalPages(|matched|, r.limit)
  {
    var page := params.page.GetOr(1);
    var limit := params.limit.GetOr(ProductsPerPage);
    var from := PageStart(page, limit);
    PageStartNotNegative(page, limit);
    WindowFrom(Ordered(rows, params), from, limit, GetProducts(rows, params).products);
  }

  /** A page is the slice of the ordered matches that starts at (page − 1) · limit. */
  lemma GetProductsPageIsSlice(rows: seq<Product>, params: ListParams)
    requires params.page.GetOr(1) >= 1 && params.limit.GetOr(ProductsPerPage) >= 1
    ensures var r := GetProducts(rows, params);
      forall i :: 0 <= i < |r.products| ==>
        0 <= PageStart(r.page, r.limit) + i < |Ordered(rows, params)| &&
        r.products[i] == Ordered(rows, params)[PageStart(r.page, r.limit) + i]
  {
    var page := params.page.GetOr(1);
    var limit := params.limit.GetOr(ProductsPerPage);
    var ordered := Ordered(rows, params);
    var from := PageStart(page, limit);
    PageStartNotNegative(page, limit);
    var r := GetProducts(rows, params);
    assert r.products == Window(ordered, from, from + limit - 1) && r.page == page && r.limit == limit;
    WindowFrom(ordered, from, limit, r.products);
    assert PageStart(r.page, r.limit) == from;
  }

  /** A window of `limit` positions from a first position that is not negative. */
  lemma WindowFrom(rows: seq<Product>, from: int, limit: int, w: seq<Product>)
    requires from >= 0 && limit >= 1 && w == Window(rows, from, from + limit - 1)
    ensures |w| <= limit
    ensures |w| > 0 ==> from + |w| <= |rows|
    ensures forall i :: 0 <= i < |w| ==> w[i] == rows[from + i]
  {
  }

  /** Every listed product is an active row matching the filters, and the page is in the requested order. */
  lemma GetProductsPageMatches(rows: seq<Product>, params: ListParams)
    requires params.page.GetOr(1) >= 1 && params.limit.GetOr(ProductsPerPage) >= 1
    ensures var r := GetProducts(rows, params);
      && (forall p :: p in r.products ==> p in rows && Matches(p, params.category, params.search))
      && SortedBy(SortKeyOf(params.sort.GetOr("latest")), r.products)
  {
    var page := params.page.GetOr(1);
    var limit := params.limit.GetOr(ProductsPerPage);
    var key := SortKeyOf(params.sort.GetOr("latest"));
    var matched := Filter(rows, params.category, params.search);
    var ordered := Ordered(rows, params);
    SortBySortsAndPermutes(key, matched);
    PageStartNotNegative(page, limit);
    var from := PageStart(page, limit);
    WindowOfSorted(key, ordered, from, from + limit - 1);
    assert GetProducts(rows, params).products == Window(ordered, from, from + limit - 1);
    forall p | p in ordered ensures p in matched {
      assert p in multiset(ordered);
    }
  }

  /** An empty category or search is no filter at all. */
  lemma EmptyFilterTextIsIgnored(rows: seq<Product>, page: Option<int>, sort: Option<string>, limit: Option<int>)
    ensures GetProducts(rows, ListParams(page, Some(""), sort, Some(""), limit))
         == GetProducts(rows, ListParams(page, None, sort, None, limit))
  {
    FilterIgnoresEmptyText(rows);
  }

  lemma {:induction false} FilterIgnoresEmptyText(rows: seq<Product>)
    ensures Filter(rows, Some(""), Some("")) == Filter(rows, None, None)
    decreases |rows|
  {
    if rows != [] {
      FilterIgnoresEmptyText(rows[1..]);
    }
  }

  // ---------------------------------------------------- getFeaturedProducts

  /** `getFeaturedProducts(limit = 8)`: the first `limit` active products, newest first. */
  function FeaturedProducts(rows: seq<Product>, limit: Option<nat>): seq<Product> {
    var ordered := SortBy(Latest, Filter(rows, None, None));
    ordered[..Min(limit.GetOr(FeaturedLimit), |ordered|)]
  }

  /** At most `limit` products, all active rows, newest first. */
  lemma FeaturedAreActiveNewestFirst(rows: seq<Product>, limit: Option<nat>)
    ensures var f := FeaturedProducts(rows, limit);
      && |f| <= limit.GetOr(FeaturedLimit)
      && (forall p :: p in f ==> p in rows && p.isActive)
      && (forall i, j :: 0 <= i < j < |f| ==> f[j].createdAt <= f[i].createdAt)
  {
    var active := Filter(rows, None, None);
    var ordered := SortBy(Latest, active);
    SortBySortsAndPermutes(Latest, active);
    var f := FeaturedProducts(rows, limit);
    forall p | p in f ensures p in rows && p.isActive {
      var i :| 0 <= i < |f| && f[i] == p;
      assert ordered[i] == p;
      assert p in multiset(ordered);
    }
    forall i, j | 0 <= i < j < |f| ensures f[j].createdAt <= f[i].createdAt {
      assert !Before(Latest, ordered[j], ordered[i]);
    }
  }

  /** No active product left out is newer than one that is shown. */
  lemma FeaturedLeaveOutNoNewer(rows: seq<Product>, limit: Option<nat>, p: Product, q: Product)
    requires p in FeaturedProducts(rows, limit)
    requires q in rows && q.isActive && q !in FeaturedProducts(rows, limit)
    ensures q.createdAt <= p.createdAt
  {
    var active := Filter(rows, None, None);
    var ordered := SortBy(Latest, active);
    SortBySortsAndPermutes(Latest, active);
    assert q in active;
    assert q in multiset(ordered);
    LeftOutOfSortedPrefix(ordered, Min(limit.GetOr(FeaturedLimit), |ordered|), p, q);
  }

  /** In a newest-first sequence, an element outside a prefix is no newer than one inside it. */
  lemma LeftOutOfSortedPrefix(ordered: seq<Product>, n: nat, p: Product, q: Product)
    requires SortedBy(Latest, ordered) && n <= |ordered|
    requires p in ordered[..n] && q in ordered && q !in ordered[..n]
    ensures q.createdAt <= p.createdAt
  {
    var j :| 0 <= j < |ordered| && ordered[j] == q;
    var i :| 0 <= i < n && ordered[..n][i] == p;
    assert j >= n;
    assert ordered[i] == p;
    assert !Before(Latest, ordered[j], ordered[i]);
  }

  // --------------------------------------------- getProductCountsByCategory

  /** `item.category || "uncategorized"`. */
  function CategoryKey(p: Product): (k: string)
    ensures k == Uncategorized <==> p.category.None? || p.category.value in {"", Uncategorized}
  {
    if p.category.None? || p.category.value == "" then Uncategorized else p.category.value
  }

  /** The counting loop, row by row: one more for the row's key. */
  function Tally(rows: seq<Product>): map<string, nat> {
    if rows == [] then map[]
    else
      var m := Tally(rows[..|rows| - 1]);
      var k := CategoryKey(rows[|rows| - 1]);
      m[k := (if k in m then m[k] else 0) + 1]
  }

  /** How many of the rows fall under `key`. */
  function CountOf(rows: seq<Product>, key: string): nat {
    if rows == [] then 0
    else CountOf(rows[..|rows| - 1], key) + (if CategoryKey(rows[|rows| - 1]) == key then 1 else 0)
  }

  /** The sum of a map's values. */
  ghost function MapSum(m: map<string, nat>): nat
    decreases |m.Keys|
  {
    if m == map[] then 0
    else
      var k :| k in m;
      m[k] + MapSum(m - {k})
  }

  lemma {:induction false} MapSumWithout(m: map<string, nat>, k: string)
    requires k in m
    ensures MapSum(m) == m[k] + MapSum(m - {k})
    decreases |m.Keys|
  {
    var j :| j in m && MapSum(m) == m[j] + MapSum(m - {j});
    if j != k {
      MapSumWithout(m - {j}, k);
      MapSumWithout(m - {k}, j);
      assert m - {j} - {k} == m - {k} - {j};
    }
  }

  lemma MapSumBump(m: map<string, nat>, k: string)
    ensures MapSum(m[k := (if k in m then m[k] else 0) + 1]) == MapSum(m) + 1
  {
    var m' := m[k := (if k in m then m[k] else 0) + 1];
    MapSumWithout(m', k);
    assert m' - {k} == m - {k};
    if k in m {
      MapSumWithout(m, k);
    } else {
      assert m - {k} == m;
    }
  }

  /** The tally has a key for exactly the categories that occur among the rows. */
  lemma {:induction false} TallyKeys(rows: seq<Product>)
    ensures forall k :: k in Tally(rows) <==> exists i :: 0 <= i < |rows| && CategoryKey(rows[i]) == k
    decreases |rows|
  {
    if rows != [] {
      var pre := rows[..|rows| - 1];
      TallyKeys(pre);
      var last := CategoryKey(rows[|rows| - 1]);
      assert Tally(rows) == Tally(pre)[last := (if last in Tally(pre) then Tally(pre)[last] else 0) + 1];
      forall k | k in Tally(rows) ensures exists i :: 0 <= i < |rows| && CategoryKey(rows[i]) == k {
        if k != CategoryKey(rows[|rows| - 1]) {
          var i :| 0 <= i < |pre| && CategoryKey(pre[i]) == k;
          assert CategoryKey(rows[i]) == k;
        }
      }
      forall k | exists i :: 0 <= i < |rows| && CategoryKey(rows[i]) == k ensures k in Tally(rows) {
        var i :| 0 <= i < |rows| && CategoryKey(rows[i]) == k;
        if i < |pre| {
          assert CategoryKey(pre[i]) == k;
        }
      }
    }
  }

  /** Each key's tally is the number of rows under it. */
  lemma {:induction false} TallyIsCount(rows: seq<Product>)
    ensures forall k :: k in Tally(rows) ==> Tally(rows)[k] == CountOf(rows, k)
    decreases |rows|
  {
    if rows != [] {
      var pre := rows[..|rows| - 1];
      TallyIsCount(pre);
      TallyKeys(pre);
      forall k | k !in Tally(pre) ensures CountOf(pre, k) == 0 {
        CountOfAbsent(pre, k);
      }
    }
  }

  lemma {:induction false} CountOfAbsent(rows: seq<Product>, key: string)
    requires forall i :: 0 <= i < |rows| ==> CategoryKey(rows[i]) != key
    ensures CountOf(rows, key) == 0
    decreases |rows|
  {
    if rows != [] {
      CountOfAbsent(rows[..|rows| - 1], key);
    }
  }

  /** The counts add up to the number of rows. */
  lemma {:induction false} TallySum(rows: seq<Product>)
    ensures MapSum(Tally(rows)) == |rows|
    decreases |rows|
  {
    if rows != [] {
      var pre := rows[..|rows| - 1];
      TallySum(pre);
      MapSumBump(Tally(pre), CategoryKey(rows[|rows| - 1]));
    }
  }

  /** `getProductCountsByCategory`: counts of the active rows per category key; a failed query gives `{}`. */
  method CountByCategory(rows: seq<Product>, queryFails: bool) returns (counts: map<string, nat>)
    ensures queryFails ==> counts == map[]
    ensures !queryFails ==> counts == Tally(Filter(rows, None, None))
  {
    if queryFails {
      return map[];
    }
    var data := Filter(rows, None, None);
    counts := map[];
    var i := 0;
    while i < |data|
      invariant 0 <= i <= |data|
      invariant counts == Tally(data[..i])
    {
      assert data[..i + 1][..i] == data[..i];
      var category := CategoryKey(data[i]);
      counts := counts[category := (if category in counts then counts[category] else 0) + 1];
      i := i + 1;
    }
    assert data[..i] == data;
  }

  /** Every counted key occurs among the active rows, and the counts add up to the number of active rows. */
  lemma CategoryCountsAddUp(rows: seq<Product>)
    ensures var active := Filter(rows, None, None);
      && (forall k :: k in Tally(active) ==> Tally(active)[k] == CountOf(active, k) && Tally(active)[k] >= 1)
      && MapSum(Tally(active)) == |active|
  {
    var active := Filter(rows, None, None);
    TallyKeys(active);
    TallyIsCount(active);
    TallySum(active);
    forall k | k in Tally(active) ensures CountOf(active, k) >= 1 {
      var i :| 0 <= i < |active| && CategoryKey(active[i]) == k;
      CountOfPositive(active, k, i);
    }
  }

  lemma {:induction false} CountOfPositive(rows: seq<Product>, key: string, i: nat)
    requires i < |rows| && CategoryKey(rows[i]) == key
    ensures CountOf(rows, key) >= 1
    decreases |rows|
  {
    if i < |rows| - 1 {
      CountOfPositive(rows[..|rows| - 1], key, i);
    }
  }

  // ------------------------------------------- the counting loop as written

  /**
   * An own property of the `counts` object: a number, or the text that
   * `+ 1` makes of a value that is not a number.
   */
  datatype CountValue = Count(n: nat) | Text(s: string)

  /**
   * The text JavaScript gives the inherited function `member` when `+ 1`
   * turns it into a string: the `Object` function for "constructor", a
   * built-in method otherwise. ("__proto__" is never bumped, see below.)
   */
  function InheritedText(member: string): string {
    "function " + (if member == "constructor" then "Object" else member) + "() { [native code] }"
  }

  /**
   * One `counts[category] = (counts[category] || 0) + 1` on a plain `{}`:
   * an own count goes up by one; an inherited member is read as a truthy
   * value, so `+ 1` appends "1" to its text, and so does a later bump of
   * that text, which is never empty; a missing key starts at 1.
   * Assigning a string to "__proto__" is ignored, so that key never appears.
   */
  function BumpAsWritten(counts: map<string, CountValue>, key: string): (r: map<string, CountValue>)
    ensures key == "__proto__" ==> r == counts
    ensures key != "__proto__" ==> key in r && r - {key} == counts - {key}
    ensures key != "__proto__" && key !in counts && key !in Categories.PrototypeMembers ==> r[key] == Count(1)
    ensures key != "__proto__" && key in counts && counts[key].Count? ==> r[key] == Count(counts[key].n + 1)
  {
    if key == "__proto__" then counts
    else
      var next :=
        if key in counts then
          match counts[key]
          case Count(n) => Count(n + 1)
          case Text(s) => Text(s + "1")
        else if key in Categories.PrototypeMembers then Text(InheritedText(key) + "1")
        else Count(1);
      counts[key := next]
  }

  /** `getProductCountsByCategory`'s loop as written, row by row. */
  function TallyAsWritten(rows: seq<Product>): map<string, CountValue> {
    if rows == [] then map[]
    else BumpAsWritten(TallyAsWritten(rows[..|rows| - 1]), CategoryKey(rows[|rows| - 1]))
  }

  /** The corrected tally, with every count a number. */
  function AsCounts(m: map<string, nat>): (r: map<string, CountValue>)
    ensures r.Keys == m.Keys
    ensures forall k :: k in m ==> r[k] == Count(m[k])
  {
    map k | k in m :: Count(m[k])
  }

  /** No active row's key is a member every object inherits. */
  predicate OffPrototype(rows: seq<Product>) {
    forall i :: 0 <= i < |rows| ==> CategoryKey(rows[i]) !in Categories.PrototypeMembers
  }

  /** Unless a key names an inherited member, the loop as written gives the corrected counts. */
  lemma {:induction false} CountsAgreeOffPrototype(rows: seq<Product>)
    requires OffPrototype(rows)
    ensures TallyAsWritten(rows) == AsCounts(Tally(rows))
    decreases |rows|
  {
    if rows != [] {
      var pre := rows[..|rows| - 1];
      assert OffPrototype(pre) by {
        forall i | 0 <= i < |pre| ensures CategoryKey(pre[i]) !in Categories.PrototypeMembers {
          assert pre[i] == rows[i];
        }
      }
      CountsAgreeOffPrototype(pre);
      var k := CategoryKey(rows[|rows| - 1]);
      assert k !in Categories.PrototypeMembers;
      var m := Tally(pre);
      var m' := m[k := (if k in m then m[k] else 0) + 1];
      assert Tally(rows) == m';
      assert TallyAsWritten(rows) == BumpAsWritten(AsCounts(m), k);
      assert BumpAsWritten(AsCounts(m), k) == AsCounts(m');
    }
  }

  /** An active "constructor" product: its count comes out as text, not the number 1. */
  lemma ConstructorCategoryCountIsText(p: Product)
    requires p.category == Some("constructor")
    ensures TallyAsWritten([p]) == map["constructor" := Text("function Object() { [native code] }1")]
    ensures Tally([p]) == map["constructor" := 1]
  {
    assert [p][..0] == [];
    assert CategoryKey(p) == "constructor";
    assert TallyAsWritten([p]) == BumpAsWritten(map[], "constructor");
    BumpInheritedOnEmpty("constructor");
    var text := InheritedText("constructor");
    assert text == "function Object() { [native code] }";
    assert text + "1" == "function Object() { [native code] }1";
  }

  /** On an empty object, an inherited member's key gets its text with "1" appended. */
  lemma BumpInheritedOnEmpty(key: string)
    requires key in Categories.PrototypeMembers && key != "__proto__"
    ensures BumpAsWritten(map[], key) == map[key := Text(InheritedText(key) + "1")]
  {
  }

  /** Two "constructor" products: the text grows by another "1". */
  lemma ConstructorCategoryCountedTwice(p: Product, q: Product)
    requires p.category == Some("constructor") && q.category == Some("constructor")
    ensures TallyAsWritten([p, q]) == map["constructor" := Text("function Object() { [native code] }11")]
    ensures Tally([p, q]) == map["constructor" := 2]
  {
    assert [p, q][..1] == [p];
    ConstructorCategoryCountIsText(p);
    assert TallyAsWritten([p, q]) == BumpAsWritten(TallyAsWritten([p]), "constructor");
    assert "function Object() { [native code] }1" + "1" == "function Object() { [native code] }11";
  }

  /** An active "__proto__" product gets no key at all, so the counts no longer add up to the rows. */
  lemma ProtoCategoryUncounted(p: Product)
    requires p.category == Some("__proto__")
    ensures TallyAsWritten([p]) == map[]
    ensures MapSum(Tally([p])) == 1
  {
    assert [p][..0] == [];
    TallySum([p]);
  }

  // --------------------------------------------------------- getProductById

  /**
   * `getProductById(id)`: the row, whatever its `is_active`; the "no row"
   * error means no product, and any other error is thrown. `failure` is the
   * error code the query reports, if any.
   */
  function ProductById(products: map<ProductId, Product>, id: ProductId, failure: Option<string>): (r: Result<Option<Product>, string>)
    ensures r.Err? <==> failure.Some? && failure.value != NoRowCode
    ensures r.Err? ==> r.error == LoadFailedMessage
    ensures r == Ok(None) <==> (failure == Some(NoRowCode) || (failure.None? && id !in products))
    ensures failure.None? && id in products ==> r == Ok(Some(products[id]))
  {
    if failure.Some? then
      if failure.value == NoRowCode then Ok(None) else Err(LoadFailedMessage)
    else if id in products then Ok(Some(products[id]))
    else Ok(None)
  }
}
