/**
 * Facts about a name-to-primitive map kept beside an append-only slice of the
 * same primitives, as a scope keeps them for counters, gauges and histograms.
 */
module Collections {

  ghost predicate Distinct<T>(s: seq<T>) {
    forall i, j :: 0 <= i < j < |s| ==> s[i] != s[j]
  }

  /** Different names are bound to different primitives. */
  ghost predicate Injective<T>(m: map<string, T>) {
    forall a, b :: a in m && b in m && a != b ==> m[a] != m[b]
  }

  /**
   * The slice holds every primitive of the map exactly once and nothing else,
   * and no primitive is bound to two names.
   */
  ghost predicate Mirrors<T>(m: map<string, T>, s: seq<T>) {
    && Distinct(s)
    && (forall i :: 0 <= i < |s| ==> s[i] in m.Values)
    && (forall k :: k in m ==> m[k] in s)
    && Injective(m)
  }

  /** `order` lists every key of `keys` exactly once. */
  ghost predicate Enumerates(order: seq<string>, keys: set<string>) {
    && Distinct(order)
    && (forall i :: 0 <= i < |order| ==> order[i] in keys)
    && (forall k :: k in keys ==> k in order)
  }

  lemma {:induction false} DistinctSize<T>(s: seq<T>)
    requires Distinct(s)
    ensures |set x | x in s| == |s|
  {
    if s != [] {
      var init := s[..|s| - 1];
      DistinctSize(init);
      assert (set x | x in s) == (set x | x in init) + {s[|s| - 1]};
      assert s[|s| - 1] !in init;
    }
  }

  lemma {:induction false} InjectiveSize<T>(m: map<string, T>)
    requires Injective(m)
    ensures |m.Values| == |m.Keys|
  {
    if m != map[] {
      var k :| k in m;
      var rest := m - {k};
      InjectiveSize(rest);
      forall v ensures v in rest.Values <==> v in m.Values && v != m[k] {
        if v in rest.Values {
          var a :| a in rest && rest[a] == v;
          assert a in m && m[a] == v;
        }
        if v in m.Values && v != m[k] {
          var a :| a in m && m[a] == v;
          assert a in rest && rest[a] == v;
        }
      }
      assert rest.Values == m.Values - {m[k]};
      assert rest.Keys == m.Keys - {k};
    }
  }

  /** A slice that mirrors a map is exactly as long as the map. */
  lemma MirrorsSameSize<T>(m: map<string, T>, s: seq<T>)
    requires Mirrors(m, s)
    ensures |s| == |m|
  {
    DistinctSize(s);
    InjectiveSize(m);
    forall y | y in m.Values ensures y in (set x | x in s) {
      var k :| k in m && m[k] == y;
    }
    assert (set x | x in s) == m.Values;
  }

  /** An enumeration of a key set is exactly as long as the set. */
  lemma EnumerationSize(order: seq<string>, keys: set<string>)
    requires Enumerates(order, keys)
    ensures |order| == |keys|
  {
    DistinctSize(order);
    forall k | k in (set x | x in order) ensures k in keys {
      var i :| 0 <= i < |order| && order[i] == k;
    }
    assert (set x | x in order) == keys;
  }

  /** Binding a new name to a new primitive and appending it keeps the mirror. */
  lemma MirrorsAppend<T>(m: map<string, T>, s: seq<T>, name: string, x: T)
    requires Mirrors(m, s)
    requires name !in m && x !in m.Values
    ensures Mirrors(m[name := x], s + [x])
  {
    var m', s' := m[name := x], s + [x];
    forall i, j | 0 <= i < j < |s'| ensures s'[i] != s'[j] {
      if j == |s| {
        assert s[i] in m.Values;
      }
    }
    forall i | 0 <= i < |s'| ensures s'[i] in m'.Values {
      if i < |s| {
        assert s[i] in m.Values;
        var a :| a in m && m[a] == s[i];
        assert m'[a] == s[i];
      } else {
        assert m'[name] == x;
      }
    }
  }

  /** Updating a union at one key is the union with the right-hand map updated. */
  lemma UnionUpdate<K, V>(a: map<K, V>, b: map<K, V>, x: K, v: V)
    ensures (a + b)[x := v] == a + b[x := v]
  {
  }
}
