/**
 * Newest-first listing: the `.order("created_at", { ascending: false })` that
 * the cart and order listings apply. A row's timestamp is its `stamp`; the
 * store keeps the stamps of one table distinct, which makes the order total.
 */
module Newest {
  /** No two rows of the table carry the same timestamp. */
  ghost predicate DistinctStamps<K>(stamp: map<K, nat>) {
    forall a, b :: a in stamp && b in stamp && a != b ==> stamp[a] != stamp[b]
  }

  /** A new row stamped later than every existing row keeps the stamps distinct. */
  lemma StampNewRow<K>(stamp: map<K, nat>, k: K, v: nat)
    requires DistinctStamps(stamp) && k !in stamp
    requires forall x :: x in stamp ==> stamp[x] < v
    ensures DistinctStamps(stamp[k := v])
  {
  }

  /** `k` is a newest row among `keys`. */
  predicate IsNewest<K(==)>(stamp: map<K, nat>, keys: set<K>, k: K)
    requires keys <= stamp.Keys
  {
    k in keys && forall j :: j in keys ==> stamp[j] <= stamp[k]
  }

  /** Every non-empty finite set of rows has a newest row. */
  lemma {:induction false} NewestExists<K>(stamp: map<K, nat>, keys: set<K>)
    requires keys <= stamp.Keys && keys != {}
    ensures exists k :: IsNewest(stamp, keys, k)
    decreases |keys|
  {
    var a :| a in keys;
    if keys != {a} {
      var rest := keys - {a};
      NewestExists(stamp, rest);
      var b :| IsNewest(stamp, rest, b);
      if stamp[a] <= stamp[b] {
        assert IsNewest(stamp, keys, b);
      } else {
        assert IsNewest(stamp, keys, a);
      }
    } else {
      assert IsNewest(stamp, keys, a);
    }
  }

  /** With distinct stamps there is only one newest row. */
  lemma NewestUnique<K>(stamp: map<K, nat>, keys: set<K>, a: K, b: K)
    requires keys <= stamp.Keys && DistinctStamps(stamp)
    requires IsNewest(stamp, keys, a) && IsNewest(stamp, keys, b)
    ensures a == b
  {
  }

  ghost function NewestOf<K>(stamp: map<K, nat>, keys: set<K>): (k: K)
    requires keys <= stamp.Keys && keys != {}
    ensures IsNewest(stamp, keys, k)
  {
    NewestExists(stamp, keys);
    var k :| IsNewest(stamp, keys, k); k
  }

  /** The rows `keys` listed newest first (properties in NewestFirstListsEachOnce). */
  ghost function NewestFirst<K>(stamp: map<K, nat>, keys: set<K>): (s: seq<K>)
    requires keys <= stamp.Keys
    ensures |s| == |keys|
    ensures forall i :: 0 <= i < |s| ==> s[i] in keys
    decreases |keys|
  {
    if keys == {} then []
    else
      var k := NewestOf(stamp, keys);
      [k] + NewestFirst(stamp, keys - {k})
  }

  /**
   * The newest-first listing holds every row exactly once, and stamps never
   * increase along it.
   */
  lemma NewestFirstListsEachOnce<K>(stamp: map<K, nat>, keys: set<K>)
    requires keys <= stamp.Keys
    ensures forall k :: k in keys ==> k in NewestFirst(stamp, keys)
    ensures forall i, j :: 0 <= i < j < |NewestFirst(stamp, keys)| ==>
      NewestFirst(stamp, keys)[i] != NewestFirst(stamp, keys)[j]
    ensures forall i, j :: 0 <= i < j < |NewestFirst(stamp, keys)| ==>
      stamp[NewestFirst(stamp, keys)[j]] <= stamp[NewestFirst(stamp, keys)[i]]
  {
    NewestFirstHasAll(stamp, keys);
    NewestFirstDistinct(stamp, keys);
    NewestFirstOrdered(stamp, keys);
  }

  lemma {:induction false} NewestFirstHasAll<K>(stamp: map<K, nat>, keys: set<K>)
    requires keys <= stamp.Keys
    ensures forall k :: k in keys ==> k in NewestFirst(stamp, keys)
    decreases |keys|
  {
    if keys != {} {
      var k := NewestOf(stamp, keys);
      var rest := NewestFirst(stamp, keys - {k});
      NewestFirstHasAll(stamp, keys - {k});
      assert NewestFirst(stamp, keys) == [k] + rest;
      forall j | j in keys ensures j in NewestFirst(stamp, keys) {
        if j != k { assert j in rest; }
      }
    }
  }

  lemma {:induction false} NewestFirstDistinct<K>(stamp: map<K, nat>, keys: set<K>)
    requires keys <= stamp.Keys
    ensures forall i, j :: 0 <= i < j < |NewestFirst(stamp, keys)| ==>
      NewestFirst(stamp, keys)[i] != NewestFirst(stamp, keys)[j]
    decreases |keys|
  {
    if keys != {} {
      var k := NewestOf(stamp, keys);
      var rest := NewestFirst(stamp, keys - {k});
      NewestFirstDistinct(stamp, keys - {k});
      var s := NewestFirst(stamp, keys);
      assert s == [k] + rest;
      forall a, b | 0 <= a < b < |s| ensures s[a] != s[b] {
        if a > 0 {
          assert s[a] == rest[a - 1] && s[b] == rest[b - 1];
        } else {
          assert s[b] == rest[b - 1] && s[b] in keys - {k};
        }
      }
    }
  }

  lemma {:induction false} NewestFirstOrdered<K>(stamp: map<K, nat>, keys: set<K>)
    requires keys <= stamp.Keys
    ensures forall i, j :: 0 <= i < j < |NewestFirst(stamp, keys)| ==>
      stamp[NewestFirst(stamp, keys)[j]] <= stamp[NewestFirst(stamp, keys)[i]]
    decreases |keys|
  {
    if keys != {} {
      var k := NewestOf(stamp, keys);
      var rest := NewestFirst(stamp, keys - {k});
      NewestFirstOrdered(stamp, keys - {k});
      var s := NewestFirst(stamp, keys);
      assert s == [k] + rest;
      forall a, b | 0 <= a < b < |s| ensures stamp[s[b]] <= stamp[s[a]] {
        if a > 0 {
          assert s[a] == rest[a - 1] && s[b] == rest[b - 1];
        } else {
          assert s[b] == rest[b - 1] && s[b] in keys - {k};
        }
      }
    }
  }

  /** Lists `keys` newest first by repeatedly taking the newest remaining row. */
  method SortNewestFirst<K(==)>(stamp: map<K, nat>, keys: set<K>) returns (s: seq<K>)
    requires keys <= stamp.Keys && DistinctStamps(stamp)
    ensures s == NewestFirst(stamp, keys)
  {
    s := [];
    var remaining := keys;
    while remaining != {}
      invariant remaining <= keys
      invariant s + NewestFirst(stamp, remaining) == NewestFirst(stamp, keys)
      decreases |remaining|
    {
      NewestExists(stamp, remaining);
      var k :| IsNewest(stamp, remaining, k);
      NewestUnique(stamp, remaining, k, NewestOf(stamp, remaining));
      assert NewestFirst(stamp, remaining) == [k] + NewestFirst(stamp, remaining - {k});
      s := s + [k];
      remaining := remaining - {k};
    }
  }
}
