/**
 * A URL query as the URL Standard's `URLSearchParams` object: an ordered
 * list of name-value pairs, changed in place by `set` and `delete`
 * (section 6.2 of the URL Living Standard).
 */
module SearchParams {
  import opened Wrappers

  type Entry = (string, string)

  /** Where `router.push` navigates: a path and its query pairs. */
  datatype Location = Location(path: string, query: seq<Entry>)

  const ProductsPath := "/products"

  /** The value of the first pair named `name`. */
  function GetParam(entries: seq<Entry>, name: string): Option<string>
  {
    if entries == [] then None
    else if entries[0].0 == name then Some(entries[0].1)
    else GetParam(entries[1..], name)
  }

  /** `get` finds nothing exactly when no pair has the name, and otherwise the value of such a pair. */
  lemma {:induction false} GetParamFindsPair(entries: seq<Entry>, name: string)
    ensures GetParam(entries, name).None? <==> forall i :: 0 <= i < |entries| ==> entries[i].0 != name
    ensures GetParam(entries, name).Some? ==>
              exists i :: 0 <= i < |entries| && entries[i] == (name, GetParam(entries, name).value)
    decreases |entries|
  {
    if entries != [] && entries[0].0 != name {
      GetParamFindsPair(entries[1..], name);
      assert forall i :: 1 <= i < |entries| ==> entries[i] == entries[1..][i - 1];
      if GetParam(entries, name).Some? {
        var i :| 0 <= i < |entries[1..]| && entries[1..][i] == (name, GetParam(entries, name).value);
        assert entries[i + 1] == entries[1..][i];
      }
    }
  }

  /** `delete(name)`: every pair named `name` goes, the rest keep their order. */
  function RemoveAll(entries: seq<Entry>, name: string): (r: seq<Entry>)
    ensures forall e :: e in r <==> e in entries && e.0 != name
    ensures |r| <= |entries|
  {
    if entries == [] then []
    else
      var rest := RemoveAll(entries[1..], name);
      assert entries == [entries[0]] + entries[1..];
      if entries[0].0 == name then rest else [entries[0]] + rest
  }

  /**
   * `set(name, value)`: the first pair named `name` takes the value and the
   * later ones go; without such a pair, one is appended.
   */
  function SetParam(entries: seq<Entry>, name: string, value: string): seq<Entry>
  {
    if entries == [] then [(name, value)]
    else if entries[0].0 == name then [(name, value)] + RemoveAll(entries[1..], name)
    else [entries[0]] + SetParam(entries[1..], name, value)
  }

  /** After `set`, the name reads back the value. */
  lemma {:induction false} SetThenGet(entries: seq<Entry>, name: string, value: string)
    ensures GetParam(SetParam(entries, name, value), name) == Some(value)
    decreases |entries|
  {
    if entries != [] && entries[0].0 != name {
      SetThenGet(entries[1..], name, value);
    }
  }

  /** No two pairs carry the name. */
  predicate AtMostOnce(entries: seq<Entry>, name: string) {
    forall i, j :: 0 <= i < j < |entries| ==> !(entries[i].0 == name && entries[j].0 == name)
  }

  /** After `set`, no other pair carries the name: it occurs exactly once. */
  lemma {:induction false} SetLeavesOnePair(entries: seq<Entry>, name: string, value: string)
    ensures AtMostOnce(SetParam(entries, name, value), name)
    decreases |entries|
  {
    if entries != [] && entries[0].0 != name {
      SetLeavesOnePair(entries[1..], name, value);
      ConsKeepsAtMostOnce(entries[0], SetParam(entries[1..], name, value), name);
    } else if entries != [] {
      var rest := RemoveAll(entries[1..], name);
      forall k | 0 <= k < |rest| ensures rest[k].0 != name {
        assert rest[k] in rest;
      }
      ConsOntoFree((name, value), rest, name);
    }
  }

  lemma ConsKeepsAtMostOnce(e: Entry, rest: seq<Entry>, name: string)
    requires e.0 != name && AtMostOnce(rest, name)
    ensures AtMostOnce([e] + rest, name)
  {
    var r := [e] + rest;
    forall i, j | 0 <= i < j < |r| ensures !(r[i].0 == name && r[j].0 == name) {
      assert r[j] == rest[j - 1];
      if i > 0 {
        assert r[i] == rest[i - 1];
      }
    }
  }

  lemma ConsOntoFree(e: Entry, rest: seq<Entry>, name: string)
    requires forall k :: 0 <= k < |rest| ==> rest[k].0 != name
    ensures AtMostOnce([e] + rest, name)
  {
    var r := [e] + rest;
    forall i, j | 0 <= i < j < |r| ensures !(r[i].0 == name && r[j].0 == name) {
      assert r[j] == rest[j - 1];
    }
  }

  /** `set` leaves every other name reading as before. */
  lemma {:induction false} SetKeepsOthers(entries: seq<Entry>, name: string, value: string, other: string)
    requires other != name
    ensures GetParam(SetParam(entries, name, value), other) == GetParam(entries, other)
    decreases |entries|
  {
    if entries != [] {
      if entries[0].0 == name {
        RemoveKeepsOthers(entries[1..], name, other);
      } else {
        SetKeepsOthers(entries[1..], name, value, other);
      }
    }
  }

  /** After `delete`, the name is gone. */
  lemma DeleteThenGet(entries: seq<Entry>, name: string)
    ensures GetParam(RemoveAll(entries, name), name).None?
  {
    var r := RemoveAll(entries, name);
    forall i | 0 <= i < |r| ensures r[i].0 != name {
      assert r[i] in r;
    }
    GetParamFindsPair(r, name);
  }

  /** `delete` leaves every other name reading as before. */
  lemma {:induction false} RemoveKeepsOthers(entries: seq<Entry>, name: string, other: string)
    requires other != name
    ensures GetParam(RemoveAll(entries, name), other) == GetParam(entries, other)
    decreases |entries|
  {
    if entries != [] {
      RemoveKeepsOthers(entries[1..], name, other);
    }
  }

  /** A `URLSearchParams` object. */
  class Params {
    var entries: seq<Entry>

    /** `new URLSearchParams(init)`, with `init` already split into pairs. */
    constructor (init: seq<Entry>)
      ensures entries == init
    {
      entries := init;
    }

    function Get(name: string): Option<string>
      reads this
    {
      GetParam(entries, name)
    }

    method Set(name: string, value: string)
      modifies this
      ensures entries == SetParam(old(entries), name, value)
      ensures Get(name) == Some(value)
    {
      SetThenGet(entries, name, value);
      entries := SetParam(entries, name, value);
    }

    method Delete(name: string)
      modifies this
      ensures entries == RemoveAll(old(entries), name)
      ensures Get(name).None?
    {
      DeleteThenGet(entries, name);
      entries := RemoveAll(entries, name);
    }
  }
}
