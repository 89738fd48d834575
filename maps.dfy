/** Emptiness, length, key and key-value assertions on maps, in the revision
    that gives maps a file of their own. */
module Maps {
  import opened GoValues
  import opened Testing
  import Messages

  /** Fails once on a nil map, without looking at the size; on a non-nil map
      fails once iff it has entries. */
  method EmptyMap<K, V>(t: Reporter, m: GoMap<K, V>)
    modifies t
    ensures m.NilMap? ==> t.failures == old(t.failures) + [Messages.EmptyMapGotNil]
    ensures m.MapOf? ==> t.failures == old(t.failures) + if |m.entries| != 0 then [Messages.EmptyMapGotLength] else []
  {
    if m.NilMap? {
      t.Error(Messages.EmptyMapGotNil);
      return;
    }
    var length := m.Len();
    if length != 0 {
      t.Error(Messages.EmptyMapGotLength);
    }
  }

  /** Fails once on a nil map and once on a non-nil empty map; passes on any
      map with entries. */
  method NotEmptyMap<K, V>(t: Reporter, m: GoMap<K, V>)
    modifies t
    ensures m.NilMap? ==> t.failures == old(t.failures) + [Messages.NotEmptyMapGotNil]
    ensures m.MapOf? ==> t.failures == old(t.failures) + if |m.entries| == 0 then [Messages.NotEmptyMapGotEmpty] else []
  {
    if m.NilMap? {
      t.Error(Messages.NotEmptyMapGotNil);
      return;
    }
    if m.Len() == 0 {
      t.Error(Messages.NotEmptyMapGotEmpty);
    }
  }

  /** Runs EmptyMap and NotEmptyMap on the same map: both fail on nil, and on
      a non-nil map exactly one fails, as its size decides. */
  method EmptyMapPair<K, V>(m: GoMap<K, V>) returns (emptyFailures: nat, notEmptyFailures: nat)
    ensures m.NilMap? ==> emptyFailures == 1 && notEmptyFailures == 1
    ensures m.MapOf? ==> emptyFailures + notEmptyFailures == 1
    ensures m.MapOf? ==> (emptyFailures == 0 <==> m.entries == map[])
  {
    var t1 := new Reporter();
    EmptyMap(t1, m);
    var t2 := new Reporter();
    NotEmptyMap(t2, m);
    emptyFailures, notEmptyFailures := |t1.failures|, |t2.failures|;
  }

  /** Fails once iff the size (0 for nil) differs from the expected one. */
  method MapLength<K, V>(t: Reporter, m: GoMap<K, V>, expectedLength: int)
    modifies t
    ensures t.failures == old(t.failures) + if |m.Entries()| != expectedLength then [Messages.MapLengthMismatch] else []
  {
    var length := m.Len();
    if length != expectedLength {
      t.Error(Messages.MapLengthMismatch);
    }
  }

  /** Fails once iff the key is absent; every key of a nil map is absent. */
  method MapContainsKey<K(==), V>(t: Reporter, m: GoMap<K, V>, k: K)
    modifies t
    ensures t.failures == old(t.failures) + if k !in m.Entries() then [Messages.KeyMissing] else []
  {
    var found := k in m.Entries();
    if !found {
      t.Error(Messages.KeyMissing);
    }
  }

  /** Fails once iff the key is present. */
  method MapNotContainsKey<K(==), V>(t: Reporter, m: GoMap<K, V>, k: K)
    modifies t
    ensures t.failures == old(t.failures) + if k in m.Entries() then [Messages.KeyPresent] else []
  {
    var found := k in m.Entries();
    if found {
      t.Error(Messages.KeyPresent);
    }
  }

  /** Runs MapContainsKey and MapNotContainsKey on the same inputs: exactly
      one fails, once. */
  method MapContainsKeyPair<K(==), V>(m: GoMap<K, V>, k: K) returns (containsFailures: nat, notContainsFailures: nat)
    ensures containsFailures + notContainsFailures == 1
    ensures containsFailures == 0 <==> k in m.Entries()
  {
    var t1 := new Reporter();
    MapContainsKey(t1, m, k);
    var t2 := new Reporter();
    MapNotContainsKey(t2, m, k);
    containsFailures, notContainsFailures := |t1.failures|, |t2.failures|;
  }

  /** An absent key (every key of a nil map is absent) fails once and skips
      the value comparison; a present key with another value fails once;
      the pair itself passes. */
  method MapContains<K(==), V(==)>(t: Reporter, m: GoMap<K, V>, k: K, v: V)
    modifies t
    ensures k !in m.Entries() ==> t.failures == old(t.failures) + [Messages.KeyNotFound]
    ensures k in m.Entries() ==> t.failures == old(t.failures) + if m.Entries()[k] != v then [Messages.ValueMismatch] else []
  {
    var entries := m.Entries();
    if k !in entries {
      t.Error(Messages.KeyNotFound);
      return;
    }
    var actualValue := entries[k];
    if v != actualValue {
      t.Error(Messages.ValueMismatch);
    }
  }

  /** Fails once iff the key is present with exactly this value; an absent
      key or another value passes. */
  method MapNotContains<K(==), V(==)>(t: Reporter, m: GoMap<K, V>, k: K, v: V)
    modifies t
    ensures t.failures == old(t.failures)
                          + if k in m.Entries() && m.Entries()[k] == v then [Messages.PairFound] else []
  {
    var entries := m.Entries();
    if k in entries && v == entries[k] {
      t.Error(Messages.PairFound);
    }
  }

  /** Runs MapContains and MapNotContains on the same inputs: exactly one
      fails, once, and MapNotContains is the one iff the pair is in the map. */
  method MapContainsPair<K(==), V(==)>(m: GoMap<K, V>, k: K, v: V) returns (containsFailures: nat, notContainsFailures: nat)
    ensures containsFailures + notContainsFailures == 1
    ensures notContainsFailures == 1 <==> k in m.Entries() && m.Entries()[k] == v
  {
    var t1 := new Reporter();
    MapContains(t1, m, k, v);
    var t2 := new Reporter();
    MapNotContains(t2, m, k, v);
    containsFailures, notContainsFailures := |t1.failures|, |t2.failures|;
  }
}
