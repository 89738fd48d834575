/** Emptiness, length and containment assertions on slices and maps, in the
    revision that keeps the slice and map checks together (it has no
    key-only map checks). */
module Collections {
  import opened GoValues
  import opened Testing
  import Messages

  // ---------------------------------------------------------------------
  // Slices

  /** Fails once on a nil slice, with its own message and without looking
      at the length; on a non-nil slice fails once iff it has elements. */
  method EmptySlice<T>(t: Reporter, s: GoSlice<T>)
    modifies t
    ensures s.NilSlice? ==> t.failures == old(t.failures) + [Messages.EmptySliceGotNil]
    ensures s.SliceOf? ==> t.failures == old(t.failures) + if |s.elems| != 0 then [Messages.EmptySliceGotLength] else []
  {
    if s.NilSlice? {
      t.Error(Messages.EmptySliceGotNil);
      return;
    }
    var length := s.Len();
    if length != 0 {
      t.Error(Messages.EmptySliceGotLength);
    }
  }

  /** Fails once on a nil slice and once on a non-nil slice with no elements;
      passes on any slice with elements. */
  method NotEmptySlice<T>(t: Reporter, s: GoSlice<T>)
    modifies t
    ensures s.NilSlice? ==> t.failures == old(t.failures) + [Messages.EmptySliceGotNil]
    ensures s.SliceOf? ==> t.failures == old(t.failures) + if |s.elems| == 0 then [Messages.NotEmptySliceGotEmpty] else []
  {
    if s.NilSlice? {
      t.Error(Messages.EmptySliceGotNil);
      return;
    }
    if s.Len() == 0 {
      t.Error(Messages.NotEmptySliceGotEmpty);
    }
  }

  /** Runs EmptySlice and NotEmptySlice on the same slice: both fail on nil,
      and on a non-nil slice exactly one fails, as its length decides. */
  method EmptySlicePair<T>(s: GoSlice<T>) returns (emptyFailures: nat, notEmptyFailures: nat)
    ensures s.NilSlice? ==> emptyFailures == 1 && notEmptyFailures == 1
    ensures s.SliceOf? ==> emptyFailures + notEmptyFailures == 1
    ensures s.SliceOf? ==> (emptyFailures == 0 <==> s.elems == [])
  {
    var t1 := new Reporter();
    EmptySlice(t1, s);
    var t2 := new Reporter();
    NotEmptySlice(t2, s);
    emptyFailures, notEmptyFailures := |t1.failures|, |t2.failures|;
  }

  /** Fails once iff the length (0 for nil) differs from the expected one. */
  method SliceLength<T>(t: Reporter, s: GoSlice<T>, expectedLength: int)
    modifies t
    ensures t.failures == old(t.failures) + if |s.Elems()| != expectedLength then [Messages.SliceLengthMismatch] else []
  {
    var length := s.Len();
    if length != expectedLength {
      t.Error(Messages.SliceLengthMismatch);
    }
  }

  /** Linear scan, stopping at the first match; nothing is found in a nil or
      empty slice. */
  method ContainsElement<K(==)>(s: GoSlice<K>, element: K) returns (found: bool)
    ensures found <==> exists i :: 0 <= i < |s.Elems()| && s.Elems()[i] == element
    ensures s.Len() == 0 ==> !found
  {
    var elems := s.Elems();
    for i := 0 to |elems|
      invariant forall j :: 0 <= j < i ==> elems[j] != element
    {
      if elems[i] == element {
        return true;
      }
    }
    return false;
  }

  /** Fails once iff the element does not occur in the slice. */
  method SliceContains<K(==)>(t: Reporter, s: GoSlice<K>, element: K)
    modifies t
    ensures t.failures == old(t.failures) + if element !in s.Elems() then [Messages.ElementNotFound] else []
  {
    var found := ContainsElement(s, element);
    if !found {
      t.Error(Messages.ElementNotFound);
    }
  }

  /** Fails once iff the element occurs in the slice. */
  method SliceNotContains<K(==)>(t: Reporter, s: GoSlice<K>, element: K)
    modifies t
    ensures t.failures == old(t.failures) + if element in s.Elems() then [Messages.ElementFound] else []
  {
    var found := ContainsElement(s, element);
    if found {
      t.Error(Messages.ElementFound);
    }
  }

  /** Runs SliceContains and SliceNotContains on the same inputs: exactly
      one fails, once. */
  method SliceContainsPair<K(==)>(s: GoSlice<K>, element: K) returns (containsFailures: nat, notContainsFailures: nat)
    ensures containsFailures + notContainsFailures == 1
    ensures containsFailures == 0 <==> element in s.Elems()
  {
    var t1 := new Reporter();
    SliceContains(t1, s, element);
    var t2 := new Reporter();
    SliceNotContains(t2, s, element);
    containsFailures, notContainsFailures := |t1.failures|, |t2.failures|;
  }

  // ---------------------------------------------------------------------
  // Maps

  /** Fails once on a nil map, without looking at the size; on a non-nil map
      fails once iff it has entries. */
  method EmptyMap<K, V>(t: Reporter, m: GoMap<K, V>)
    modifies t
    ensures m.NilMap? ==> t.failures == old(t.failures) + [Messages.EmptyMapGotNil]
    ensures m.MapOf? ==> t.failures == old(t.failures) + if |m.entries| != 0 then [Messages.EmptyMapGotLength] else []
  {
    if m.NilMap? {
      t.Error(Messages.EmptyMapGotNil);
      return;
    }
    var length := m.Len();
    if length != 0 {
      t.Error(Messages.EmptyMapGotLength);
    }
  }

  /** Fails once on a nil map and once on a non-nil empty map; passes on any
      map with entries. */
  method NotEmptyMap<K, V>(t: Reporter, m: GoMap<K, V>)
    modifies t
    ensures m.NilMap? ==> t.failures == old(t.failures) + [Messages.NotEmptyMapGotNil]
    ensures m.MapOf? ==> t.failures == old(t.failures) + if |m.entries| == 0 then [Messages.NotEmptyMapGotEmpty] else []
  {
    if m.NilMap? {
      t.Error(Messages.NotEmptyMapGotNil);
      return;
    }
    if m.Len() == 0 {
      t.Error(Messages.NotEmptyMapGotEmpty);
    }
  }

  /** Runs EmptyMap and NotEmptyMap on the same map: both fail on nil, and on
      a non-nil map exactly one fails, as its size decides. */
  method EmptyMapPair<K, V>(m: GoMap<K, V>) returns (emptyFailures: nat, notEmptyFailures: nat)
    ensures m.NilMap? ==> emptyFailures == 1 && notEmptyFailures == 1
    ensures m.MapOf? ==> emptyFailures + notEmptyFailures == 1
    ensures m.MapOf? ==> (emptyFailures == 0 <==> m.entries == map[])
  {
    var t1 := new Reporter();
    EmptyMap(t1, m);
    var t2 := new Reporter();
    NotEmptyMap(t2, m);
    emptyFailures, notEmptyFailures := |t1.failures|, |t2.failures|;
  }

  /** Fails once iff the size (0 for nil) differs from the expected one. */
  method MapLength<K, V>(t: Reporter, m: GoMap<K, V>, expectedLength: int)
    modifies t
    ensures t.failures == old(t.failures) + if |m.Entries()| != expectedLength then [Messages.MapLengthMismatch] else []
  {
    var length := m.Len();
    if length != expectedLength {
      t.Error(Messages.MapLengthMismatch);
    }
  }

  /** An absent key (every key of a nil map is absent) fails once and skips
      the value comparison; a present key with another value fails once;
      the pair itself passes. */
  method MapContains<K(==), V(==)>(t: Reporter, m: GoMap<K, V>, k: K, v: V)
    modifies t
    ensures k !in m.Entries() ==> t.failures == old(t.failures) + [Messages.KeyNotFound]
    ensures k in m.Entries() ==> t.failures == old(t.failures) + if m.Entries()[k] != v then [Messages.ValueMismatch] else []
  {
    var entries := m.Entries();
    if k !in entries {
      t.Error(Messages.KeyNotFound);
      return;
    }
    var actualValue := entries[k];
    if v != actualValue {
      t.Error(Messages.ValueMismatch);
    }
  }

  /** Fails once iff the key is present with exactly this value; an absent
      key or another value passes. */
  method MapNotContains<K(==), V(==)>(t: Reporter, m: GoMap<K, V>, k: K, v: V)
    modifies t
    ensures t.failures == old(t.failures)
                          + if k in m.Entries() && m.Entries()[k] == v then [Messages.PairFound] else []
  {
    var entries := m.Entries();
    if k in entries && v == entries[k] {
      t.Error(Messages.PairFound);
    }
  }

  /** Runs MapContains and MapNotContains on the same inputs: exactly one
      fails, once, and MapNotContains is the one iff the pair is in the map. */
  method MapContainsPair<K(==), V(==)>(m: GoMap<K, V>, k: K, v: V) returns (containsFailures: nat, notContainsFailures: nat)
    ensures containsFailures + notContainsFailures == 1
    ensures notContainsFailures == 1 <==> k in m.Entries() && m.Entries()[k] == v
  {
    var t1 := new Reporter();
    MapContains(t1, m, k, v);
    var t2 := new Reporter();
    MapNotContains(t2, m, k, v);
    containsFailures, notContainsFailures := |t1.failures|, |t2.failures|;
  }
}
