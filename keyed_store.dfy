/**
 * The in-memory keyed store behind each controller (the repositories of
 * src/airport/storage): a map from id to entity with point lookup, insert-if-absent,
 * replace-if-present and a listing ordered by id.
 */
module KeyedStore {
  import opened Optional

  /** `less` is irreflexive, transitive and relates any two distinct keys. */
  ghost predicate StrictTotalOrder<K(!new)>(less: (K, K) -> bool) {
    && (forall a :: !less(a, a))
    && (forall a, b, c :: less(a, b) && less(b, c) ==> less(a, c))
    && (forall a, b :: a != b ==> less(a, b) || less(b, a))
  }

  /**
   * `String.compareTo(b) < 0`: at the first position where the strings differ the
   * character of `a` is smaller, or `a` is a proper prefix of `b`.
   */
  predicate StringLess(a: string, b: string) {
    if a == [] then b != []
    else if b == [] then false
    else if a[0] != b[0] then a[0] < b[0]
    else StringLess(a[1..], b[1..])
  }

  lemma {:induction false} StringLessIrreflexive(a: string)
    ensures !StringLess(a, a)
  {
    if a != [] {
      StringLessIrreflexive(a[1..]);
    }
  }

  lemma {:induction false} StringLessTransitive(a: string, b: string, c: string)
    requires StringLess(a, b) && StringLess(b, c)
    ensures StringLess(a, c)
  {
    if a != [] && b != [] && c != [] && a[0] == b[0] && b[0] == c[0] {
      StringLessTransitive(a[1..], b[1..], c[1..]);
    }
  }

  lemma {:induction false} StringLessConnected(a: string, b: string)
    requires a != b
    ensures StringLess(a, b) || StringLess(b, a)
  {
    if a != [] && b != [] && a[0] == b[0] {
      assert a == [a[0]] + a[1..] && b == [b[0]] + b[1..];
      StringLessConnected(a[1..], b[1..]);
    }
  }

  /** Lexicographic order on strings is a strict total order. */
  lemma StringLessIsStrictTotalOrder()
    ensures StrictTotalOrder(StringLess)
  {
    forall a: string
      ensures !StringLess(a, a)
    {
      StringLessIrreflexive(a);
    }
    forall a: string, b: string, c: string | StringLess(a, b) && StringLess(b, c)
      ensures StringLess(a, c)
    {
      StringLessTransitive(a, b, c);
    }
    forall a: string, b: string | a != b
      ensures StringLess(a, b) || StringLess(b, a)
    {
      StringLessConnected(a, b);
    }
  }

  /** Strictly increasing under `less`. */
  ghost predicate Increasing<K>(s: seq<K>, less: (K, K) -> bool) {
    forall i, j :: 0 <= i < j < |s| ==> less(s[i], s[j])
  }

  predicate IsGreatest<K(==)>(m: K, s: set<K>, less: (K, K) -> bool) {
    m in s && forall k :: k in s && k != m ==> less(k, m)
  }

  /** A finite non-empty set has a greatest element under a strict total order. */
  lemma {:induction false} GreatestExists<K(!new)>(s: set<K>, less: (K, K) -> bool)
    requires s != {} && StrictTotalOrder(less)
    ensures exists m :: IsGreatest(m, s, less)
    decreases |s|
  {
    var x :| x in s;
    if s != {x} {
      GreatestExists(s - {x}, less);
      var y :| IsGreatest(y, s - {x}, less);
      if less(x, y) {
        assert IsGreatest(y, s, less);
      } else {
        assert IsGreatest(x, s, less);
      }
    } else {
      assert IsGreatest(x, s, less);
    }
  }

  /** The keys of a set in increasing order, each exactly once. */
  method SortedKeys<K(==,!new)>(keys: set<K>, less: (K, K) -> bool) returns (r: seq<K>)
    requires StrictTotalOrder(less)
    ensures Increasing(r, less)
    ensures forall k :: k in r <==> k in keys
    ensures |r| == |keys|
  {
    var rest := keys;
    r := [];
    while rest != {}
      invariant rest <= keys
      invariant forall k :: k in r <==> k in keys && k !in rest
      invariant Increasing(r, less)
      invariant forall a, b :: a in rest && b in r ==> less(a, b)
      invariant |r| + |rest| == |keys|
      decreases |rest|
    {
      GreatestExists(rest, less);
      var m :| IsGreatest(m, rest, less);
      r := [m] + r;
      rest := rest - {m};
    }
  }

  /**
   * A repository: the stored entities by key. `key` extracts an entity's id and `less`
   * orders ids for `FindAll`.
   */
  class Repository<K(==,!new), V> {
    var entries: map<K, V>
    const key: V -> K
    const less: (K, K) -> bool

    /** Every entity is stored under its own id. */
    ghost predicate Valid()
      reads this
    {
      forall k :: k in entries ==> key(entries[k]) == k
    }

    constructor (key: V -> K, less: (K, K) -> bool)
      ensures Valid()
      ensures entries == map[] && this.key == key && this.less == less
    {
      this.key := key;
      this.less := less;
      entries := map[];
    }

    /** `findById`: the stored entity, or absent. */
    function FindById(k: K): (found: Option<V>)
      reads this
      ensures found.Some? <==> k in entries
      ensures found.Some? ==> found.value == entries[k]
      ensures Valid() && found.Some? ==> key(found.value) == k
    {
      if k in entries then Some(entries[k]) else None
    }

    /** `save`: insert an entity whose id is not yet stored; refuse (absent result) a duplicate. */
    method Save(v: V) returns (saved: Option<V>)
      requires Valid()
      modifies this
      ensures Valid()
      ensures key(v) in old(entries) ==> saved == None && entries == old(entries)
      ensures key(v) !in old(entries) ==> saved == Some(v) && entries == old(entries)[key(v) := v]
    {
      if key(v) in entries {
        saved := None;
      } else {
        entries := entries[key(v) := v];
        saved := Some(v);
      }
    }

    /** `update`: replace the entity stored under the same id; refuse (absent result) an unknown id. */
    method Update(v: V) returns (updated: Option<V>)
      requires Valid()
      modifies this
      ensures Valid()
      ensures key(v) !in old(entries) ==> updated == None && entries == old(entries)
      ensures key(v) in old(entries) ==> updated == Some(v) && entries == old(entries)[key(v) := v]
    {
      if key(v) !in entries {
        updated := None;
      } else {
        entries := entries[key(v) := v];
        updated := Some(v);
      }
    }

    /** `findAll`: a fresh listing of every stored entity, once each, ordered by id. */
    method FindAll() returns (all: seq<V>)
      requires Valid() && StrictTotalOrder(less)
      ensures |all| == |entries|
      ensures forall i, j :: 0 <= i < j < |all| ==> less(key(all[i]), key(all[j]))
      ensures forall i :: 0 <= i < |all| ==> key(all[i]) in entries && entries[key(all[i])] == all[i]
      ensures forall k :: k in entries ==> exists i :: 0 <= i < |all| && all[i] == entries[k]
    {
      var ids := SortedKeys(entries.Keys, less);
      var m := entries;
      all := seq(|ids|, i requires 0 <= i < |ids| => m[ids[i]]);
      assert |entries.Keys| == |entries|;
      forall k | k in entries
        ensures exists i :: 0 <= i < |all| && all[i] == entries[k]
      {
        var i :| 0 <= i < |ids| && ids[i] == k;
        assert all[i] == entries[k];
      }
    }
  }
}
