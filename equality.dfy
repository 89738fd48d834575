/** Equality, nilness, ordered and unordered slice comparison, and map
    comparison, each as a decision plus the assertions that report on it. */
module Equality {
  import opened GoValues
  import opened Testing
  import Messages

  // ---------------------------------------------------------------------
  // Equal / NotEqual

  /** Fails iff the two comparable values differ. */
  method Equal<K(==)>(t: Reporter, expected: K, actual: K)
    modifies t
    ensures t.failures == old(t.failures) + if actual != expected then [Messages.Inequality] else []
  {
    if actual != expected {
      t.Error(Messages.Inequality);
    }
  }

  /** Fails iff the two comparable values are equal. */
  method NotEqual<K(==)>(t: Reporter, expected: K, actual: K)
    modifies t
    ensures t.failures == old(t.failures) + if actual == expected then [Messages.Equality] else []
  {
    if actual == expected {
      t.Error(Messages.Equality);
    }
  }

  /** Runs Equal and NotEqual on the same inputs, each on a fresh reporter:
      exactly one of them fails, once. */
  method EqualPair<K(==)>(expected: K, actual: K) returns (equalFailures: nat, notEqualFailures: nat)
    ensures equalFailures + notEqualFailures == 1
    ensures equalFailures == 1 <==> expected != actual
  {
    var t1 := new Reporter();
    Equal(t1, expected, actual);
    var t2 := new Reporter();
    NotEqual(t2, expected, actual);
    equalFailures, notEqualFailures := |t1.failures|, |t2.failures|;
  }

  // ---------------------------------------------------------------------
  // Nil / NotNil

  /** The untyped nil is nil; a value of a nilable kind is nil iff it holds
      that kind's nil reference; a value of any other kind never is. */
  function IsNil(value: Value): (r: bool)
    ensures value.UntypedNil? ==> r
    ensures value.Dynamic? && !value.kind.Nilable() ==> !r
    ensures value.Dynamic? && value.kind.Nilable() ==> (r <==> value.nilRef)
  {
    match value
    case UntypedNil => true
    case Dynamic(kind, nilRef) =>
      match kind
      case Ptr | Map | Slice | Chan | Func => nilRef
      case Other => false
  }

  /** A value is nil exactly when it is the untyped nil, or is of a kind the
      check lists and holds a nil reference. */
  lemma IsNilIffNilReference(value: Value)
    ensures IsNil(value) <==> value.UntypedNil? || (value.Dynamic? && value.kind.Nilable() && value.nilRef)
  {
  }

  /** A value of an unlisted kind is never nil, even when it holds a nil
      reference: a nil unsafe pointer boxed as `interface{}` is reported as
      not nil, so Nil fails on it. */
  lemma UnlistedKindNeverNil(value: Value)
    requires value.Dynamic? && !value.kind.Nilable()
    ensures !IsNil(value)
    ensures !IsNil(Dynamic(value.kind, true))
  {
  }

  /** A boxed slice is nil iff the slice is nil: a non-nil slice with no
      elements is not nil. */
  lemma IsNilOfSlice<T>(s: GoSlice<T>)
    ensures IsNil(SliceValue(s)) <==> s.NilSlice?
    ensures IsNil(SliceValue(GoSlice<T>.SliceOf([]))) == false
  {
  }

  /** A boxed map is nil iff the map is nil: a non-nil empty map is not nil. */
  lemma IsNilOfMap<K, V>(m: GoMap<K, V>)
    ensures IsNil(MapValue(m)) <==> m.NilMap?
    ensures IsNil(MapValue(GoMap<K, V>.MapOf(map[]))) == false
  {
  }

  /** Fails iff the value is not nil. */
  method Nil(t: Reporter, actual: Value)
    modifies t
    ensures t.failures == old(t.failures) + if !IsNil(actual) then [Messages.Inequality] else []
  {
    if !IsNil(actual) {
      t.Error(Messages.Inequality);
    }
  }

  /** Fails iff the value is nil. */
  method NotNil(t: Reporter, actual: Value)
    modifies t
    ensures t.failures == old(t.failures) + if IsNil(actual) then [Messages.Equality] else []
  {
    if IsNil(actual) {
      t.Error(Messages.Equality);
    }
  }

  /** Runs Nil and NotNil on the same value: exactly one fails, once. */
  method NilPair(actual: Value) returns (nilFailures: nat, notNilFailures: nat)
    ensures nilFailures + notNilFailures == 1
    ensures nilFailures == 0 <==> actual.UntypedNil? || (actual.kind.Nilable() && actual.nilRef)
  {
    var t1 := new Reporter();
    Nil(t1, actual);
    var t2 := new Reporter();
    NotNil(t2, actual);
    nilFailures, notNilFailures := |t1.failures|, |t2.failures|;
  }

  // ---------------------------------------------------------------------
  // EqualSlice / NotEqualSlice

  /** Positional equality: lengths first, then element by element. A nil
      slice and an empty one compare equal. */
  method AreEqualSlices<K(==)>(expected: GoSlice<K>, actual: GoSlice<K>) returns (r: bool)
    ensures actual.Len() != expected.Len() ==> !r
    ensures r <==> |actual.Elems()| == |expected.Elems()|
                   && forall i :: 0 <= i < |expected.Elems()| ==> actual.Elems()[i] == expected.Elems()[i]
    ensures r <==> expected.Elems() == actual.Elems()
  {
    var e, a := expected.Elems(), actual.Elems();
    if |a| != |e| {
      return false;
    }
    for i := 0 to |e|
      invariant forall j :: 0 <= j < i ==> a[j] == e[j]
    {
      if a[i] != e[i] {
        return false;
      }
    }
    return true;
  }

  /** Fails iff the slices differ in length or at some position. */
  method EqualSlice<K(==)>(t: Reporter, expected: GoSlice<K>, actual: GoSlice<K>)
    modifies t
    ensures t.failures == old(t.failures)
                          + if expected.Elems() != actual.Elems() then [Messages.Inequality] else []
  {
    var equal := AreEqualSlices(expected, actual);
    if !equal {
      t.Error(Messages.Inequality);
    }
  }

  /** Fails iff the slices have the same elements in the same order. */
  method NotEqualSlice<K(==)>(t: Reporter, expected: GoSlice<K>, actual: GoSlice<K>)
    modifies t
    ensures t.failures == old(t.failures)
                          + if expected.Elems() == actual.Elems() then [Messages.Equality] else []
  {
    var equal := AreEqualSlices(expected, actual);
    if equal {
      t.Error(Messages.Equality);
    }
  }

  /** Runs EqualSlice and NotEqualSlice on the same slices: exactly one
      fails, once. */
  method EqualSlicePair<K(==)>(expected: GoSlice<K>, actual: GoSlice<K>)
    returns (equalFailures: nat, notEqualFailures: nat)
    ensures equalFailures + notEqualFailures == 1
    ensures equalFailures == 0 <==> expected.Elems() == actual.Elems()
  {
    var t1 := new Reporter();
    EqualSlice(t1, expected, actual);
    var t2 := new Reporter();
    NotEqualSlice(t2, expected, actual);
    equalFailures, notEqualFailures := |t1.failures|, |t2.failures|;
  }

  // ---------------------------------------------------------------------
  // SimilarSlice / NotSimilarSlice

  /** The element -> occurrence-count map that the counting loop of
      AreSimilarSlices builds, one element at a time. */
  function CountsOf<K>(s: seq<K>): (counts: map<K, int>)
  {
    if s == [] then map[]
    else
      var before, v := CountsOf(s[..|s| - 1]), s[|s| - 1];
      before[v := (if v in before then before[v] else 0) + 1]
  }

  /** The count map holds exactly the elements of `s`, each with its
      multiplicity. */
  lemma {:induction false} CountsOfCountsOccurrences<K>(s: seq<K>)
    ensures forall x | x in multiset(s) :: x in CountsOf(s)
    ensures forall x | x in CountsOf(s) :: CountsOf(s)[x] == multiset(s)[x] > 0
  {
    if s != [] {
      var prefix, v := s[..|s| - 1], s[|s| - 1];
      assert s == prefix + [v];
      CountsOfCountsOccurrences(prefix);
    }
  }

  /** Counting one more element bumps its count, starting from 0. */
  lemma CountsOfSnoc<K>(s: seq<K>, v: K)
    ensures CountsOf(s + [v]) == CountsOf(s)[v := (if v in CountsOf(s) then CountsOf(s)[v] else 0) + 1]
  {
  }

  /** Two count maps agree iff the sequences are permutations of each other. */
  lemma CountsOfDetermineMultiset<K>(a: seq<K>, b: seq<K>)
    ensures CountsOf(a) == CountsOf(b) <==> multiset(a) == multiset(b)
  {
    var ca, cb := CountsOf(a), CountsOf(b);
    CountsOfCountsOccurrences(a);
    CountsOfCountsOccurrences(b);
    if ca == cb {
      forall x
        ensures multiset(a)[x] == multiset(b)[x]
      {
        if x in ca {
          assert multiset(a)[x] == ca[x] == cb[x] == multiset(b)[x];
        }
      }
    }
    if multiset(a) == multiset(b) {
      assert ca.Keys == cb.Keys;
    }
  }

  /** Multiset equality: lengths first, then two element -> count maps
      built in loops and compared with IsEqualMap. */
  method AreSimilarSlices<K(==)>(expected: GoSlice<K>, actual: GoSlice<K>) returns (r: bool)
    ensures actual.Len() != expected.Len() ==> !r
    ensures r <==> multiset(expected.Elems()) == multiset(actual.Elems())
  {
    var e, a := expected.Elems(), actual.Elems();
    if |a| != |e| {
      assert |multiset(a)| != |multiset(e)|;
      return false;
    }

    var expectedCounts: map<K, int> := map[];
    for i := 0 to |e|
      invariant expectedCounts == CountsOf(e[..i])
    {
      assert e[..i + 1] == e[..i] + [e[i]];
      CountsOfSnoc(e[..i], e[i]);
      var v := e[i];
      expectedCounts := expectedCounts[v := (if v in expectedCounts then expectedCounts[v] else 0) + 1];
    }

    var actualCounts: map<K, int> := map[];
    for i := 0 to |a|
      invariant actualCounts == CountsOf(a[..i])
    {
      assert a[..i + 1] == a[..i] + [a[i]];
      CountsOfSnoc(a[..i], a[i]);
      var v := a[i];
      actualCounts := actualCounts[v := (if v in actualCounts then actualCounts[v] else 0) + 1];
    }

    assert e[..|e|] == e && a[..|a|] == a;
    CountsOfDetermineMultiset(e, a);
    r := IsEqualMap(MapOf(expectedCounts), MapOf(actualCounts));
  }

  /** Fails iff the slices are not permutations of each other. */
  method SimilarSlice<K(==)>(t: Reporter, expected: GoSlice<K>, actual: GoSlice<K>)
    modifies t
    ensures t.failures == old(t.failures)
                          + if multiset(expected.Elems()) != multiset(actual.Elems()) then [Messages.Inequality] else []
  {
    var similar := AreSimilarSlices(expected, actual);
    if !similar {
      t.Error(Messages.Inequality);
    }
  }

  /** Fails iff the slices are permutations of each other. */
  method NotSimilarSlice<K(==)>(t: Reporter, expected: GoSlice<K>, actual: GoSlice<K>)
    modifies t
    ensures t.failures == old(t.failures)
                          + if multiset(expected.Elems()) == multiset(actual.Elems()) then [Messages.Equality] else []
  {
    var similar := AreSimilarSlices(expected, actual);
    if similar {
      t.Error(Messages.Equality);
    }
  }

  /** Runs SimilarSlice and NotSimilarSlice on the same slices: exactly one
      fails, once. */
  method SimilarSlicePair<K(==)>(expected: GoSlice<K>, actual: GoSlice<K>)
    returns (similarFailures: nat, notSimilarFailures: nat)
    ensures similarFailures + notSimilarFailures == 1
    ensures similarFailures == 0 <==> multiset(expected.Elems()) == multiset(actual.Elems())
  {
    var t1 := new Reporter();
    SimilarSlice(t1, expected, actual);
    var t2 := new Reporter();
    NotSimilarSlice(t2, expected, actual);
    similarFailures, notSimilarFailures := |t1.failures|, |t2.failures|;
  }

  /** The similarity check does not depend on which slice is the expected one. */
  method SimilarityIsSymmetric<K(==)>(a: GoSlice<K>, b: GoSlice<K>) returns (forward: bool, backward: bool)
    ensures forward == backward
  {
    forward := AreSimilarSlices(a, b);
    backward := AreSimilarSlices(b, a);
  }

  /** Slices that are equal position by position are also similar. */
  method EqualSlicesAreSimilar<K(==)>(expected: GoSlice<K>, actual: GoSlice<K>) returns (equal: bool, similar: bool)
    ensures equal ==> similar
  {
    equal := AreEqualSlices(expected, actual);
    similar := AreSimilarSlices(expected, actual);
  }

  /** The outcomes the similarity tests expect: a reordering is similar, and
      equally long slices with different values are not. */
  method SimilarityExamples() returns (reordered: bool, differentValues: bool, differentLengths: bool)
    ensures reordered && !differentValues && !differentLengths
  {
    assert multiset([3, 16, 5, 5, 10]) == multiset{3, 16, 5, 5, 10} == multiset([3, 10, 5, 5, 16]);
    reordered := AreSimilarSlices(SliceOf([3, 16, 5, 5, 10]), SliceOf([3, 10, 5, 5, 16]));
    var withSeven, withoutSeven := [3, 7, 5, 5, 16], [3, 10, 5, 5, 8];
    assert withSeven[1] == 7 && 7 !in withoutSeven;
    differentValues := AreSimilarSlices(SliceOf(withSeven), SliceOf(withoutSeven));
    differentLengths := AreSimilarSlices(SliceOf([3, 10, 5]), SliceOf([3, 10, 5, 8]));
  }

  // ---------------------------------------------------------------------
  // EqualMap / NotEqualMap

  /** A subset as large as its superset is the whole superset. */
  lemma SubsetOfSameSize<K>(small: set<K>, big: set<K>)
    requires small <= big && |small| == |big|
    ensures small == big
  {
    assert small * big == small;
    assert |big - small| == 0;
    assert big - small == {};
    assert forall x | x in big :: x in big - small || x in small;
  }

  /** Map equality: sizes first, then every actual entry is looked up in
      expected (visiting the keys in no particular order). */
  method IsEqualMap<K(==), V(==)>(expected: GoMap<K, V>, actual: GoMap<K, V>) returns (r: bool)
    ensures actual.Len() != expected.Len() ==> !r
    ensures r <==> expected.Entries() == actual.Entries()
  {
    var e, a := expected.Entries(), actual.Entries();
    if |a| != |e| {
      return false;
    }
    var remaining := a.Keys;
    while remaining != {}
      invariant remaining <= a.Keys
      invariant forall k :: k in a && k !in remaining ==> k in e && e[k] == a[k]
      decreases remaining
    {
      var actualKey :| actualKey in remaining;
      if actualKey !in e || a[actualKey] != e[actualKey] {
        return false;
      }
      remaining := remaining - {actualKey};
    }
    SubsetOfSameSize(a.Keys, e.Keys);
    return true;
  }

  /** Fails iff the maps differ as finite maps. */
  method EqualMap<K(==), V(==)>(t: Reporter, expected: GoMap<K, V>, actual: GoMap<K, V>)
    modifies t
    ensures t.failures == old(t.failures)
                          + if expected.Entries() != actual.Entries() then [Messages.Inequality] else []
  {
    var equal := IsEqualMap(expected, actual);
    if !equal {
      t.Error(Messages.Inequality);
    }
  }

  /** Fails iff the maps hold the same key-value pairs. */
  method NotEqualMap<K(==), V(==)>(t: Reporter, expected: GoMap<K, V>, actual: GoMap<K, V>)
    modifies t
    ensures t.failures == old(t.failures)
                          + if expected.Entries() == actual.Entries() then [Messages.Equality] else []
  {
    var equal := IsEqualMap(expected, actual);
    if equal {
      t.Error(Messages.Equality);
    }
  }

  /** Runs EqualMap and NotEqualMap on the same maps: exactly one fails, once. */
  method EqualMapPair<K(==), V(==)>(expected: GoMap<K, V>, actual: GoMap<K, V>)
    returns (equalFailures: nat, notEqualFailures: nat)
    ensures equalFailures + notEqualFailures == 1
    ensures equalFailures == 0 <==> expected.Entries() == actual.Entries()
  {
    var t1 := new Reporter();
    EqualMap(t1, expected, actual);
    var t2 := new Reporter();
    NotEqualMap(t2, expected, actual);
    equalFailures, notEqualFailures := |t1.failures|, |t2.failures|;
  }
}
