/**
 * The orders a product listing can be requested in, and a reference sort
 * that puts a sequence of products in that order. Ties keep their order in
 * the input.
 */
module ProductSort {
  import opened ShopTypes

  datatype SortKey = PriceAsc | PriceDesc | NameAsc | Latest

  /** The `switch (sort)`: every value other than the three named ones means newest first. */
  function SortKeyOf(sort: string): (k: SortKey)
    ensures sort == "price_asc" <==> k == PriceAsc
    ensures sort == "price_desc" <==> k == PriceDesc
    ensures sort == "name_asc" <==> k == NameAsc
  {
    if sort == "price_asc" then PriceAsc
    else if sort == "price_desc" then PriceDesc
    else if sort == "name_asc" then NameAsc
    else Latest
  }

  /** Lexicographic order on strings, character by character. */
  predicate StringLess(a: string, b: string)
    decreases |a|
  {
    if a == [] then b != []
    else if b == [] then false
    else if a[0] != b[0] then a[0] < b[0]
    else StringLess(a[1..], b[1..])
  }

  lemma {:induction false} StringLessIrreflexive(a: string)
    ensures !StringLess(a, a)
    decreases |a|
  {
    if a != [] {
      StringLessIrreflexive(a[1..]);
    }
  }

  lemma {:induction false} StringLessTransitive(a: string, b: string, c: string)
    requires StringLess(a, b) && StringLess(b, c)
    ensures StringLess(a, c)
    decreases |a|
  {
    if a != [] && b != [] && c != [] && a[0] == b[0] && b[0] == c[0] {
      StringLessTransitive(a[1..], b[1..], c[1..]);
    }
  }

  lemma {:induction false} StringLessTotal(a: string, b: string)
    requires a != b
    ensures StringLess(a, b) || StringLess(b, a)
    decreases |a|
  {
    if a != [] && b != [] && a[0] == b[0] {
      StringLessTotal(a[1..], b[1..]);
    }
  }

  /** `a` must come strictly before `b` in the requested order. */
  predicate Before(key: SortKey, a: Product, b: Product) {
    match key
    case PriceAsc => a.price < b.price
    case PriceDesc => a.price > b.price
    case NameAsc => StringLess(a.name, b.name)
    case Latest => a.createdAt > b.createdAt
  }

  /** `Before` is a strict weak order: irreflexive, asymmetric and negatively transitive. */
  lemma BeforeIsStrictWeakOrder(key: SortKey, a: Product, b: Product, c: Product)
    ensures !Before(key, a, a)
    ensures Before(key, a, b) ==> !Before(key, b, a)
    ensures Before(key, a, c) ==> Before(key, a, b) || Before(key, b, c)
  {
    if key == NameAsc {
      StringLessIrreflexive(a.name);
      if StringLess(a.name, b.name) && StringLess(b.name, a.name) {
        StringLessTransitive(a.name, b.name, a.name);
        StringLessIrreflexive(a.name);
      }
      if StringLess(a.name, c.name) && !StringLess(a.name, b.name) && !StringLess(b.name, c.name) {
        if a.name != b.name {
          StringLessTotal(a.name, b.name);
          StringLessTransitive(b.name, a.name, c.name);
        }
      }
    }
  }

  /** No element is placed after one it must come before. */
  ghost predicate SortedBy(key: SortKey, s: seq<Product>) {
    forall i, j :: 0 <= i < j < |s| ==> !Before(key, s[j], s[i])
  }

  /** Inserts `x` in front of the first element that need not come before it. */
  function Insert(key: SortKey, x: Product, s: seq<Product>): seq<Product>
    decreases |s|
  {
    if s == [] || !Before(key, s[0], x) then [x] + s
    else [s[0]] + Insert(key, x, s[1..])
  }

  function SortBy(key: SortKey, s: seq<Product>): seq<Product>
    decreases |s|
  {
    if s == [] then [] else Insert(key, s[0], SortBy(key, s[1..]))
  }

  lemma {:induction false} InsertPermutes(key: SortKey, x: Product, s: seq<Product>)
    ensures multiset(Insert(key, x, s)) == multiset(s) + multiset{x}
    decreases |s|
  {
    if s != [] && Before(key, s[0], x) {
      InsertPermutes(key, x, s[1..]);
      assert s == [s[0]] + s[1..];
    }
  }

  lemma {:induction false} InsertKeepsSorted(key: SortKey, x: Product, s: seq<Product>)
    requires SortedBy(key, s)
    ensures SortedBy(key, Insert(key, x, s))
    decreases |s|
  {
    if s == [] {
    } else if !Before(key, s[0], x) {
      forall j | 0 <= j < |s| ensures !Before(key, s[j], x) {
        BeforeIsStrictWeakOrder(key, s[j], s[0], x);
      }
      PrependKeepsSorted(key, x, s);
    } else {
      var rest := Insert(key, x, s[1..]);
      assert SortedBy(key, s[1..]) by {
        forall i, j | 0 <= i < j < |s[1..]| ensures !Before(key, s[1..][j], s[1..][i]) {
          assert s[1..][i] == s[i + 1] && s[1..][j] == s[j + 1];
        }
      }
      InsertKeepsSorted(key, x, s[1..]);
      InsertPermutes(key, x, s[1..]);
      BeforeIsStrictWeakOrder(key, s[0], x, x);
      forall j | 0 <= j < |rest| ensures !Before(key, rest[j], s[0]) {
        assert rest[j] in multiset(rest);
        if rest[j] != x {
          assert rest[j] in multiset(s[1..]);
          var k :| 0 <= k < |s[1..]| && s[1..][k] == rest[j];
          assert s[k + 1] == rest[j];
        }
      }
      PrependKeepsSorted(key, s[0], rest);
    }
  }

  /** An element that need not follow any element of a sorted sequence can go in front of it. */
  lemma PrependKeepsSorted(key: SortKey, x: Product, s: seq<Product>)
    requires SortedBy(key, s)
    requires forall j :: 0 <= j < |s| ==> !Before(key, s[j], x)
    ensures SortedBy(key, [x] + s)
  {
    var r := [x] + s;
    forall i, j | 0 <= i < j < |r| ensures !Before(key, r[j], r[i]) {
      assert r[j] == s[j - 1];
      if i > 0 {
        assert r[i] == s[i - 1];
      }
    }
  }

  /** The reference sort yields the same products, in the requested order. */
  lemma SortBySortsAndPermutes(key: SortKey, s: seq<Product>)
    ensures SortedBy(key, SortBy(key, s))
    ensures multiset(SortBy(key, s)) == multiset(s)
    ensures |SortBy(key, s)| == |s|
  {
    SortBySorts(key, s);
    SortByPermutes(key, s);
    assert |SortBy(key, s)| == |multiset(SortBy(key, s))|;
  }

  lemma {:induction false} SortBySorts(key: SortKey, s: seq<Product>)
    ensures SortedBy(key, SortBy(key, s))
    decreases |s|
  {
    if s != [] {
      SortBySorts(key, s[1..]);
      InsertKeepsSorted(key, s[0], SortBy(key, s[1..]));
    }
  }

  lemma {:induction false} SortByPermutes(key: SortKey, s: seq<Product>)
    ensures multiset(SortBy(key, s)) == multiset(s)
    decreases |s|
  {
    if s != [] {
      var sorted := SortBy(key, s[1..]);
      SortByPermutes(key, s[1..]);
      InsertPermutes(key, s[0], sorted);
      assert SortBy(key, s) == Insert(key, s[0], sorted);
      assert s == [s[0]] + s[1..];
      assert multiset(s) == multiset(s[1..]) + multiset{s[0]};
    }
  }
}
