/**
 * The append-only merge of newly discovered descriptors into the hub's lists
 * (`_merge`), and the same "which ones are not there yet" selection the
 * entity platforms use to reconcile. The ids already present are collected
 * once, before anything is appended.
 */
module Registry {
  import opened Descriptors

  /** The ids of a list of entries. */
  function Ids<T(==)>(s: seq<T>, key: T -> Id): set<Id> {
    set x | x in s :: key(x)
  }

  /** The descriptors of a list of entities, in order, as `desc` gives them. */
  function Descs<E, D>(entities: seq<E>, desc: E -> D): (ds: seq<D>)
    ensures |ds| == |entities|
    ensures forall j :: 0 <= j < |entities| ==> ds[j] == desc(entities[j])
  {
    seq(|entities|, j requires 0 <= j < |entities| => desc(entities[j]))
  }

  /** No two entries of the list share an id. */
  predicate UniqueBy<T(==)>(s: seq<T>, key: T -> Id) {
    forall i, j :: 0 <= i < j < |s| ==> key(s[i]) != key(s[j])
  }

  /** The entries of `s` whose id is not in `have`, in the order of `s`. */
  function Absent<T(==)>(s: seq<T>, have: set<Id>, key: T -> Id): seq<T> {
    if s == [] then []
    else Absent(s[..|s| - 1], have, key) + (if key(s[|s| - 1]) in have then [] else [s[|s| - 1]])
  }

  /** `_merge(old, new)`: appends every entry of `incoming` whose id was not in `existing` before the call. */
  method Merge<T(==)>(existing: seq<T>, incoming: seq<T>, key: T -> Id) returns (r: seq<T>)
    ensures r == existing + Absent(incoming, Ids(existing, key), key)
  {
    var have := Ids(existing, key);
    r := existing;
    var i := 0;
    while i < |incoming|
      invariant 0 <= i <= |incoming|
      invariant r == existing + Absent(incoming[..i], have, key)
    {
      assert incoming[..i + 1][..i] == incoming[..i];
      if key(incoming[i]) !in have {
        r := r + [incoming[i]];
      }
      i := i + 1;
    }
    assert incoming[..|incoming|] == incoming;
  }

  lemma IdsAppend<T>(s: seq<T>, t: seq<T>, key: T -> Id)
    ensures Ids(s + t, key) == Ids(s, key) + Ids(t, key)
  {
    var u := s + t;
    forall k | k in Ids(u, key) ensures k in Ids(s, key) + Ids(t, key) {
      var i :| 0 <= i < |u| && key(u[i]) == k;
      if i >= |s| {
        assert t[i - |s|] == u[i];
      }
    }
    forall k | k in Ids(s, key) ensures k in Ids(u, key) {
      var i :| 0 <= i < |s| && key(s[i]) == k;
      assert u[i] == s[i];
    }
    forall k | k in Ids(t, key) ensures k in Ids(u, key) {
      var i :| 0 <= i < |t| && key(t[i]) == k;
      assert u[|s| + i] == t[i];
    }
  }

  lemma IdsSingleton<T>(x: T, key: T -> Id)
    ensures Ids([x], key) == {key(x)}
  {
    assert x in [x];
  }

  /** The selection keeps exactly the ids of `s` that are not in `have`, and each of its entries comes from `s`. */
  lemma {:induction false} AbsentSpec<T>(s: seq<T>, have: set<Id>, key: T -> Id)
    ensures Ids(Absent(s, have, key), key) == Ids(s, key) - have
    ensures forall i :: 0 <= i < |Absent(s, have, key)| ==> key(Absent(s, have, key)[i]) !in have
    ensures |Absent(s, have, key)| <= |s|
  {
    if s != [] {
      var init, last := s[..|s| - 1], s[|s| - 1];
      assert s == init + [last];
      AbsentSpec(init, have, key);
      IdsAppend(init, [last], key);
      var tail := if key(last) in have then [] else [last];
      IdsAppend(Absent(init, have, key), tail, key);
    }
  }

  /** When every id of `s` is already present, nothing is selected. */
  lemma {:induction false} AbsentWhenCovered<T>(s: seq<T>, have: set<Id>, key: T -> Id)
    requires Ids(s, key) <= have
    ensures Absent(s, have, key) == []
  {
    if s != [] {
      var init := s[..|s| - 1];
      assert key(s[|s| - 1]) in Ids(s, key);
      assert Ids(init, key) <= Ids(s, key) by {
        forall k | k in Ids(init, key) ensures k in Ids(s, key) {
          var i :| 0 <= i < |init| && key(init[i]) == k;
          assert s[i] == init[i];
        }
      }
      AbsentWhenCovered(init, have, key);
    }
  }

  /** Appending a list with unique ids that are all incoming keeps the ids unique. */
  lemma UniqueAppend<T>(s: seq<T>, t: seq<T>, key: T -> Id)
    requires UniqueBy(s, key) && UniqueBy(t, key)
    requires Ids(s, key) !! Ids(t, key)
    ensures UniqueBy(s + t, key)
  {
    var u := s + t;
    forall i, j | 0 <= i < j < |u| ensures key(u[i]) != key(u[j]) {
      if i < |s| && j >= |s| {
        assert key(u[i]) in Ids(s, key);
        assert u[j] == t[j - |s|];
        assert key(u[j]) in Ids(t, key);
      } else if i >= |s| {
        assert u[i] == t[i - |s|] && u[j] == t[j - |s|];
      }
    }
  }

  /** Selecting from a list with unique ids gives a list with unique ids. */
  lemma {:induction false} AbsentUnique<T>(s: seq<T>, have: set<Id>, key: T -> Id)
    requires UniqueBy(s, key)
    ensures UniqueBy(Absent(s, have, key), key)
  {
    if s != [] {
      var init, last := s[..|s| - 1], s[|s| - 1];
      assert UniqueBy(init, key);
      AbsentUnique(init, have, key);
      AbsentSpec(init, have, key);
      if key(last) !in have {
        assert key(last) !in Ids(init, key);
        UniqueAppend(Absent(init, have, key), [last], key);
      }
    }
  }

  /** After a merge the ids are those of `existing` together with those of `incoming`: every id of `incoming` is present. */
  lemma MergedIds<T>(existing: seq<T>, incoming: seq<T>, key: T -> Id)
    ensures Ids(existing + Absent(incoming, Ids(existing, key), key), key) == Ids(existing, key) + Ids(incoming, key)
  {
    AbsentSpec(incoming, Ids(existing, key), key);
    IdsAppend(existing, Absent(incoming, Ids(existing, key), key), key);
  }

  /** Merging the same list a second time changes nothing. */
  lemma MergeIdempotent<T>(existing: seq<T>, incoming: seq<T>, key: T -> Id)
    ensures var m := existing + Absent(incoming, Ids(existing, key), key);
            m + Absent(incoming, Ids(m, key), key) == m
  {
    var m := existing + Absent(incoming, Ids(existing, key), key);
    MergedIds(existing, incoming, key);
    AbsentWhenCovered(incoming, Ids(m, key), key);
  }

  /** If `existing` and `incoming` each have unique ids, so does the merged list. */
  lemma MergeUnique<T>(existing: seq<T>, incoming: seq<T>, key: T -> Id)
    requires UniqueBy(existing, key) && UniqueBy(incoming, key)
    ensures UniqueBy(existing + Absent(incoming, Ids(existing, key), key), key)
  {
    AbsentUnique(incoming, Ids(existing, key), key);
    AbsentSpec(incoming, Ids(existing, key), key);
    UniqueAppend(existing, Absent(incoming, Ids(existing, key), key), key);
  }

  /** The ids present before are collected once, so an entry repeated in `incoming` is appended twice. */
  lemma MergeKeepsRepeatsOfNew<T>(existing: seq<T>, x: T, key: T -> Id)
    requires key(x) !in Ids(existing, key)
    ensures existing + Absent([x, x], Ids(existing, key), key) == existing + [x, x]
  {
    var have := Ids(existing, key);
    assert [x, x][..1] == [x] && [x][..0] == [];
    assert Absent([x], have, key) == [x];
  }
}
