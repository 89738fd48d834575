/** Slice and map containment assertions, in the revision that takes the
    concrete test type rather than the reporter interface and never marks
    itself as a test helper; the reporter's behaviour is the same. */
module Containment {
  import opened GoValues
  import opened Testing
  import Messages

  /** Linear scan, stopping at the first match; nothing is found in a nil or
      empty slice. */
  method ContainsElement<K(==)>(s: GoSlice<K>, element: K) returns (found: bool)
    ensures found <==> exists i :: 0 <= i < |s.Elems()| && s.Elems()[i] == element
    ensures s.Len() == 0 ==> !found
  {
    var elems := s.Elems();
    for i := 0 to |elems|
      invariant forall j :: 0 <= j < i ==> elems[j] != element
    {
      if elems[i] == element {
        return true;
      }
    }
    return false;
  }

  /** Fails once iff the element does not occur in the slice. */
  method SliceContains<K(==)>(t: Reporter, s: GoSlice<K>, element: K)
    modifies t
    ensures t.failures == old(t.failures) + if element !in s.Elems() then [Messages.ElementNotFound] else []
  {
    var found := ContainsElement(s, element);
    if !found {
      t.Error(Messages.ElementNotFound);
    }
  }

  /** Fails once iff the element occurs in the slice. */
  method SliceNotContains<K(==)>(t: Reporter, s: GoSlice<K>, element: K)
    modifies t
    ensures t.failures == old(t.failures) + if element in s.Elems() then [Messages.ElementFound] else []
  {
    var found := ContainsElement(s, element);
    if found {
      t.Error(Messages.ElementFound);
    }
  }

  /** Runs SliceContains and SliceNotContains on the same inputs: exactly
      one fails, once. */
  method SliceContainsPair<K(==)>(s: GoSlice<K>, element: K) returns (containsFailures: nat, notContainsFailures: nat)
    ensures containsFailures + notContainsFailures == 1
    ensures containsFailures == 0 <==> element in s.Elems()
  {
    var t1 := new Reporter();
    SliceContains(t1, s, element);
    var t2 := new Reporter();
    SliceNotContains(t2, s, element);
    containsFailures, notContainsFailures := |t1.failures|, |t2.failures|;
  }

  /** An absent key (every key of a nil map is absent) fails once and skips
      the value comparison; a present key with another value fails once;
      the pair itself passes. */
  method MapContains<K(==), V(==)>(t: Reporter, m: GoMap<K, V>, k: K, v: V)
    modifies t
    ensures k !in m.Entries() ==> t.failures == old(t.failures) + [Messages.KeyNotFound]
    ensures k in m.Entries() ==> t.failures == old(t.failures) + if m.Entries()[k] != v then [Messages.ValueMismatch] else []
  {
    var entries := m.Entries();
    if k !in entries {
      t.Error(Messages.KeyNotFound);
      return;
    }
    var actualValue := entries[k];
    if v != actualValue {
      t.Error(Messages.ValueMismatch);
    }
  }

  /** Fails once iff the key is present with exactly this value; an absent
      key or another value passes. */
  method MapNotContains<K(==), V(==)>(t: Reporter, m: GoMap<K, V>, k: K, v: V)
    modifies t
    ensures t.failures == old(t.failures)
                          + if k in m.Entries() && m.Entries()[k] == v then [Messages.PairFound] else []
  {
    var entries := m.Entries();
    if k in entries && v == entries[k] {
      t.Error(Messages.PairFound);
    }
  }

  /** Runs MapContains and MapNotContains on the same inputs: exactly one
      fails, once, and MapNotContains is the one iff the pair is in the map. */
  method MapContainsPair<K(==), V(==)>(m: GoMap<K, V>, k: K, v: V) returns (containsFailures: nat, notContainsFailures: nat)
    ensures containsFailures + notContainsFailures == 1
    ensures notContainsFailures == 1 <==> k in m.Entries() && m.Entries()[k] == v
  {
    var t1 := new Reporter();
    MapContains(t1, m, k, v);
    var t2 := new Reporter();
    MapNotContains(t2, m, k, v);
    containsFailures, notContainsFailures := |t1.failures|, |t2.failures|;
  }
}
