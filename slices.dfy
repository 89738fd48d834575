/** Emptiness, length and containment assertions on slices, in the revision
    that gives slices a file of their own. */
module Slices {
  import opened GoValues
  import opened Testing
  import Messages

  /** Fails once on a nil slice, with its own message and without looking
      at the length; on a non-nil slice fails once iff it has elements. */
  method EmptySlice<T>(t: Reporter, s: GoSlice<T>)
    modifies t
    ensures s.NilSlice? ==> t.failures == old(t.failures) + [Messages.EmptySliceGotNil]
    ensures s.SliceOf? ==> t.failures == old(t.failures) + if |s.elems| != 0 then [Messages.EmptySliceGotLength] else []
  {
    if s.NilSlice? {
      t.Error(Messages.EmptySliceGotNil);
      return;
    }
    var length := s.Len();
    if length != 0 {
      t.Error(Messages.EmptySliceGotLength);
    }
  }

  /** Fails once on a nil slice and once on a non-nil slice with no elements;
      passes on any slice with elements. */
  method NotEmptySlice<T>(t: Reporter, s: GoSlice<T>)
    modifies t
    ensures s.NilSlice? ==> t.failures == old(t.failures) + [Messages.EmptySliceGotNil]
    ensures s.SliceOf? ==> t.failures == old(t.failures) + if |s.elems| == 0 then [Messages.NotEmptySliceGotEmpty] else []
  {
    if s.NilSlice? {
      t.Error(Messages.EmptySliceGotNil);
      return;
    }
    if s.Len() == 0 {
      t.Error(Messages.NotEmptySliceGotEmpty);
    }
  }

  /** Runs EmptySlice and NotEmptySlice on the same slice: both fail on nil,
      and on a non-nil slice exactly one fails, as its length decides. */
  method EmptySlicePair<T>(s: GoSlice<T>) returns (emptyFailures: nat, notEmptyFailures: nat)
    ensures s.NilSlice? ==> emptyFailures == 1 && notEmptyFailures == 1
    ensures s.SliceOf? ==> emptyFailures + notEmptyFailures == 1
    ensures s.SliceOf? ==> (emptyFailures == 0 <==> s.elems == [])
  {
    var t1 := new Reporter();
    EmptySlice(t1, s);
    var t2 := new Reporter();
    NotEmptySlice(t2, s);
    emptyFailures, notEmptyFailures := |t1.failures|, |t2.failures|;
  }

  /** Fails once iff the length (0 for nil) differs from the expected one. */
  method SliceLength<T>(t: Reporter, s: GoSlice<T>, expectedLength: int)
    modifies t
    ensures t.failures == old(t.failures) + if |s.Elems()| != expectedLength then [Messages.SliceLengthMismatch] else []
  {
    var length := s.Len();
    if length != expectedLength {
      t.Error(Messages.SliceLengthMismatch);
    }
  }

  /** Linear scan, stopping at the first match; nothing is found in a nil or
      empty slice. */
  method ContainsElement<K(==)>(s: GoSlice<K>, element: K) returns (found: bool)
    ensures found <==> exists i :: 0 <= i < |s.Elems()| && s.Elems()[i] == element
    ensures s.Len() == 0 ==> !found
  {
    var elems := s.Elems();
    for i := 0 to |elems|
      invariant forall j :: 0 <= j < i ==> elems[j] != element
    {
      if elems[i] == element {
        return true;
      }
    }
    return false;
  }

  /** Fails once iff the element does not occur in the slice. */
  method SliceContains<K(==)>(t: Reporter, s: GoSlice<K>, element: K)
    modifies t
    ensures t.failures == old(t.failures) + if element !in s.Elems() then [Messages.ElementNotFound] else []
  {
    var found := ContainsElement(s, element);
    if !found {
      t.Error(Messages.ElementNotFound);
    }
  }

  /** Fails once iff the element occurs in the slice. */
  method SliceNotContains<K(==)>(t: Reporter, s: GoSlice<K>, element: K)
    modifies t
    ensures t.failures == old(t.failures) + if element in s.Elems() then [Messages.ElementFound] else []
  {
    var found := ContainsElement(s, element);
    if found {
      t.Error(Messages.ElementFound);
    }
  }

  /** Runs SliceContains and SliceNotContains on the same inputs: exactly
      one fails, once. */
  method SliceContainsPair<K(==)>(s: GoSlice<K>, element: K) returns (containsFailures: nat, notContainsFailures: nat)
    ensures containsFailures + notContainsFailures == 1
    ensures containsFailures == 0 <==> element in s.Elems()
  {
    var t1 := new Reporter();
    SliceContains(t1, s, element);
    var t2 := new Reporter();
    SliceNotContains(t2, s, element);
    containsFailures, notContainsFailures := |t1.failures|, |t2.failures|;
  }
}
