/** Go values as the assertions see them: slices and maps that may be nil,
    and the dynamic kinds that decide whether a boxed value can be nil. */
module GoValues {

  /** A Go slice. A nil slice and a non-nil slice with no elements are
      different values; only some assertions treat them alike. */
  datatype GoSlice<T> = NilSlice | SliceOf(elems: seq<T>) {

    /** The elements a `range` loop visits: none for a nil slice. */
    function Elems(): (s: seq<T>) {
      if NilSlice? then [] else elems
    }

    /** Go's `len`, which is 0 on a nil slice. */
    function Len(): (n: nat) {
      |Elems()|
    }
  }

  /** A Go map. A nil map reads like an empty one but is a different value. */
  datatype GoMap<K, V> = NilMap | MapOf(entries: map<K, V>) {

    /** The entries a lookup or a `range` loop sees: none for a nil map. */
    function Entries(): (m: map<K, V>) {
      if NilMap? then map[] else entries
    }

    /** Go's `len`, which is 0 on a nil map. */
    function Len(): (n: nat) {
      |Entries()|
    }
  }

  /** The dynamic kinds of a boxed value that the nil check lists; every
      other kind (numbers, strings, structs, arrays, unsafe pointers, ...)
      is `Other`. */
  datatype Kind = Ptr | Map | Slice | Chan | Func | Other {

    /** The kinds the nil check asks about. An `Other` value may still hold
        a nil reference (a nil unsafe pointer), but it is never reported nil. */
    predicate Nilable() {
      !Other?
    }
  }

  /** A value passed as `interface{}`: either the untyped nil, or a value of
      some dynamic kind together with whether it holds a nil reference
      (always false for kinds without references, such as numbers). */
  datatype Value = UntypedNil | Dynamic(kind: Kind, nilRef: bool)

  /** A slice boxed as `interface{}`. */
  function SliceValue<T>(s: GoSlice<T>): (v: Value) {
    Dynamic(Slice, s.NilSlice?)
  }

  /** A map boxed as `interface{}`. */
  function MapValue<K, V>(m: GoMap<K, V>): (v: Value) {
    Dynamic(Map, m.NilMap?)
  }
}
