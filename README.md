# goassert, modelled in Dafny

goassert is a small Go library of soft assertions for unit tests. Each public
assertion first decides something about its inputs: equality, nilness, order-sensitive or
order-insensitive slice equality, map equality, emptiness, length, or
membership. When the decision goes the wrong way, the assertion records one
non-fatal failure on the test reporter it was given. The test then carries on.

This model keeps both halves of that pattern:

- **The reporter** (`testing.dfy`). `Testing.Reporter` is a class whose only
  state is the append-only log `failures: seq<string>`. `Error` appends one
  message to it.
- **Go values** (`go_values.dfy`). Go distinguishes a nil slice or map from an
  empty one, so both become datatypes with a nil case:
  `GoSlice = NilSlice | SliceOf(elems)` and `GoMap = NilMap | MapOf(entries)`.
  `Elems()` and `Entries()` give what `range` and a lookup see, which is
  nothing on nil. `Len()` is Go's `len`, which is 0 on nil. A value passed as
  `interface{}` is `UntypedNil` or `Dynamic(kind, nilRef)`. The kinds come from a
  closed datatype (`Ptr | Map | Slice | Chan | Func | Other`), which replaces
  the reflection that `isNil` performs.
- **Messages** (`messages.dfy`). This module holds the text that each failure records.
- **One module per assertion file.** The slice, map and containment files are
  overlapping revisions that redefine the same functions, so each has a module
  of its own:
  - `Equality` (assert_equality.go)
  - `Collections` (assert_collections.go)
  - `Slices` (assert_slice.go)
  - `Maps` (assert_map.go)
  - `Containment` (assert_containment.go)
  - `Booleans` (assert_true.go)

The decision procedures that loop in Go are read-only methods with loops here:
`areEqualSlices`, `areSimilarSlices`, `isEqualMap` and `sliceContains`. Each is
proved against a specification:

- sequence equality for `areEqualSlices`;
- multiset equality for `areSimilarSlices`;
- finite-map equality for `isEqualMap`;
- membership for `sliceContains`.

`areSimilarSlices` builds its two element-to-count maps with the same loops
as the Go code, on the assumption that element equality is an equivalence
relation (see "## Left out"). Its loop invariant ties the partial map to `CountsOf` of the prefix already
scanned. `isEqualMap` visits the keys of `actual` in an unspecified order, by
choosing any key that has not been visited yet.

Each public assertion is a method that takes the reporter, with
`modifies t`. Its `ensures` states the whole new log: either the old log
unchanged, or the old log with exactly one named message added. Methods named
`...Pair` (and `TrueFalsePair`) run a positive assertion and its negative
counterpart on two fresh reporters, which is the pattern the Go tests use, and
return how many failures each reporter recorded. Their contracts state how the
two outcomes relate:

- For every complementary pair, exactly one of the two assertions fails, and it fails once.
- The emptiness pairs are the exception: both fail on nil, because nil and
  empty are different outcomes.

`SimilarSlice` compares the two count maps and has no other matching path.

## Model

| member | source | states |
|---|---|---|
| `Equality.Equal` | assert_equality.go:11-17 | one inequality failure is appended iff `actual != expected`; otherwise the log is unchanged |
| `Equality.NotEqual` | assert_equality.go:22-28 | one equality failure is appended iff `actual == expected`; otherwise the log is unchanged |
| `Equality.EqualPair` | assert_equality.go:11-28 | on the same inputs exactly one of Equal/NotEqual fails, exactly once, and Equal is the one iff the values differ |
| `Equality.IsNil` | assert_equality.go:52-63 | the untyped nil is nil; a Ptr/Map/Slice/Chan/Func value is nil iff it holds a nil reference; every other kind is never nil |
| `Equality.IsNilIffNilReference` | assert_equality.go:52-63 | for every value, nil iff it is the untyped nil, or is of a Ptr/Map/Slice/Chan/Func kind and holds a nil reference |
| `Equality.UnlistedKindNeverNil` | assert_equality.go:57-62 | a value of any kind outside the switch is never nil, even when it holds a nil reference (a nil unsafe pointer), so Nil fails on it |
| `Equality.IsNilOfSlice` | assert_equality_test.go:399-470 | a boxed slice is nil iff the slice is nil, so a non-nil slice, empty or not, is not nil (the tests use `[]int{10}`; the empty case is the contract's own) |
| `Equality.IsNilOfMap` | assert_equality_test.go:387-458 | a boxed map is nil iff the map is nil, so a non-nil empty map is not nil |
| `Equality.Nil` | assert_equality.go:33-39 | one failure is appended iff the value is not nil |
| `Equality.NotNil` | assert_equality.go:44-50 | one failure is appended iff the value is nil |
| `Equality.NilPair` | assert_equality.go:33-50 | exactly one of Nil/NotNil fails, once; Nil passes iff the value is the untyped nil or a nilable kind holding nil |
| `Equality.AreEqualSlices` | assert_equality.go:87-101 | a length difference gives false; the result is true iff the lengths agree and `actual[i] == expected[i]` at every index, which is the same as sequence equality (nil equals empty) |
| `Equality.EqualSlice` | assert_equality.go:68-74 | one failure is appended iff the element sequences differ |
| `Equality.NotEqualSlice` | assert_equality.go:79-85 | one failure is appended iff the element sequences are equal |
| `Equality.EqualSlicePair` | assert_equality.go:68-85 | exactly one of EqualSlice/NotEqualSlice fails, once |
| `Equality.CountsOfSnoc` | assert_equality.go:133-135 | counting one more element adds 1 to its count, starting from 0 for an absent key, as `m[v] += 1` does |
| `Equality.CountsOfCountsOccurrences` | assert_equality.go:132-140 | the count map built from a sequence holds exactly its elements, each with its multiplicity (always positive) |
| `Equality.CountsOfDetermineMultiset` | assert_equality.go:132-142 | two count maps are equal iff the two sequences have equal multisets |
| `Equality.AreSimilarSlices` | assert_equality.go:125-143 | a length difference gives false; the result is true iff `multiset(expected) == multiset(actual)` |
| `Equality.SimilarSlice` | assert_equality.go:106-112 | one failure is appended iff the slices are not permutations of each other |
| `Equality.NotSimilarSlice` | assert_equality.go:117-123 | one failure is appended iff the slices are permutations of each other |
| `Equality.SimilarSlicePair` | assert_equality.go:106-123 | exactly one of SimilarSlice/NotSimilarSlice fails, once |
| `Equality.SimilarityIsSymmetric` | assert_equality.go:125-143 | swapping expected and actual does not change the similarity verdict |
| `Equality.EqualSlicesAreSimilar` | assert_equality.go:87-143 | slices that are equal position by position are also similar |
| `Equality.SimilarityExamples` | assert_equality_test.go:617-667 | `[3,16,5,5,10]` is similar to `[3,10,5,5,16]`; `[3,7,5,5,16]` is not similar to `[3,10,5,5,8]`; `[3,10,5]` is not similar to `[3,10,5,8]` |
| `Equality.SubsetOfSameSize` | assert_equality.go:168-179 | a key set that is contained in another key set of the same size is equal to it, which is why one-directional lookup suffices |
| `Equality.IsEqualMap` | assert_equality.go:167-182 | a size difference gives false; the result is true iff the two maps are equal as finite maps (nil equals empty) |
| `Equality.EqualMap` | assert_equality.go:148-154 | one failure is appended iff the maps differ |
| `Equality.NotEqualMap` | assert_equality.go:159-165 | one failure is appended iff the maps are equal |
| `Equality.EqualMapPair` | assert_equality.go:148-165 | exactly one of EqualMap/NotEqualMap fails, once |
| `Collections.EmptySlice` | assert_collections.go:8-20 | nil appends exactly "Expected empty slice but got nil" and skips the length check; a non-nil slice appends one failure iff it has elements |
| `Collections.NotEmptySlice` | assert_collections.go:25-36 | nil appends one failure; a non-nil slice with no elements appends one; otherwise the log is unchanged |
| `Collections.EmptySlicePair` | assert_collections.go:8-36 | both fail once on nil; on a non-nil slice exactly one fails, and EmptySlice passes iff there are no elements |
| `Collections.SliceLength` | assert_collections.go:41-48 | one failure is appended iff `len(s)` (0 for nil) differs from the expected length |
| `Collections.ContainsElement` | assert_collections.go:72-80 | true iff some index holds the element; false on nil or empty slices |
| `Collections.SliceContains` | assert_collections.go:53-59 | one failure is appended iff the element does not occur |
| `Collections.SliceNotContains` | assert_collections.go:64-70 | one failure is appended iff the element occurs |
| `Collections.SliceContainsPair` | assert_collections.go:53-70 | exactly one of SliceContains/SliceNotContains fails, once |
| `Collections.EmptyMap` | assert_collections.go:85-97 | nil appends exactly "Expected empty map but got nil" and returns; a non-nil map appends one failure iff it has entries |
| `Collections.NotEmptyMap` | assert_collections.go:102-113 | nil appends one failure; a non-nil empty map appends one; otherwise the log is unchanged |
| `Collections.EmptyMapPair` | assert_collections.go:85-113 | both fail once on nil; on a non-nil map exactly one fails, and EmptyMap passes iff the map is empty |
| `Collections.MapLength` | assert_collections.go:118-125 | one failure is appended iff `len(m)` (0 for nil) differs from the expected length |
| `Collections.MapContains` | assert_collections.go:130-143 | an absent key (always absent in a nil map) appends exactly one "not found" failure and skips the value check; a present key with a different value appends one mismatch failure; otherwise the log is unchanged |
| `Collections.MapNotContains` | assert_collections.go:148-156 | one failure is appended iff the key is present and its value equals `v` |
| `Collections.MapContainsPair` | assert_collections.go:130-156 | exactly one of MapContains/MapNotContains fails, once, and MapNotContains is the one iff the pair is in the map |
| `Slices.EmptySlice` | assert_slice.go:8-20 | nil appends exactly one nil failure and returns early; a non-nil slice appends one failure iff it has elements |
| `Slices.NotEmptySlice` | assert_slice.go:25-36 | nil and a non-nil empty slice each append exactly one failure; a slice with elements passes |
| `Slices.EmptySlicePair` | assert_slice.go:8-36 | both fail once on nil; on a non-nil slice exactly one fails |
| `Slices.SliceLength` | assert_slice.go:41-48 | one failure is appended iff `len(s) != expectedLength` |
| `Slices.ContainsElement` | assert_slice.go:72-80 | true iff some index holds the element; false on nil or empty slices |
| `Slices.SliceContains` | assert_slice.go:53-59 | one failure is appended iff the element is absent |
| `Slices.SliceNotContains` | assert_slice.go:64-70 | one failure is appended iff the element is present |
| `Slices.SliceContainsPair` | assert_slice.go:53-70 | exactly one of SliceContains/SliceNotContains fails, once |
| `Maps.EmptyMap` | assert_map.go:8-20 | nil appends exactly one nil failure and returns; a non-nil map appends one failure iff `len(m) != 0` |
| `Maps.NotEmptyMap` | assert_map.go:25-36 | nil and a non-nil empty map each append exactly one failure; a map with entries passes |
| `Maps.EmptyMapPair` | assert_map.go:8-36 | both fail once on nil; on a non-nil map exactly one fails |
| `Maps.MapLength` | assert_map.go:41-48 | one failure is appended iff `len(m)` (0 for nil) differs from the expected length |
| `Maps.MapContainsKey` | assert_map.go:53-60 | one failure is appended iff the key is not in the domain (a nil map has an empty domain) |
| `Maps.MapNotContainsKey` | assert_map.go:65-72 | one failure is appended iff the key is in the domain |
| `Maps.MapContainsKeyPair` | assert_map.go:53-72 | exactly one of MapContainsKey/MapNotContainsKey fails, once |
| `Maps.MapContains` | assert_map.go:77-90 | an absent key appends one "not found" failure and skips the value check; a different value appends one mismatch failure; otherwise the log is unchanged |
| `Maps.MapNotContains` | assert_map.go:95-103 | one failure is appended iff the key is present and `m[k] == v` |
| `Maps.MapContainsPair` | assert_map.go:77-103 | exactly one of MapContains/MapNotContains fails, once |
| `Containment.ContainsElement` | assert_containment.go:17-25 | true iff some index holds the element |
| `Containment.SliceContains` | assert_containment.go:5-9 | one failure is appended iff the element is absent |
| `Containment.SliceNotContains` | assert_containment.go:11-15 | one failure is appended iff the element is present |
| `Containment.SliceContainsPair` | assert_containment.go:5-15 | exactly one of SliceContains/SliceNotContains fails, once |
| `Containment.MapContains` | assert_containment.go:27-38 | an absent key appends exactly one failure and skips the value check; a present key appends one failure iff its value differs from `v` |
| `Containment.MapNotContains` | assert_containment.go:40-46 | one failure is appended iff the key is present and its value equals `v`; an absent key or a different value leaves the log unchanged |
| `Containment.MapContainsPair` | assert_containment.go:27-46 | exactly one of MapContains/MapNotContains fails, once |
| `Booleans.True` | assert_true.go:8-14 | one failure is appended iff the assertion is false; a true assertion leaves the log unchanged |
| `Booleans.False` | assert_true.go:19-25 | one failure is appended iff the assertion is true; a false assertion leaves the log unchanged |
| `Booleans.TrueFalsePair` | assert_true.go:8-25 | for any boolean exactly one of True/False fails, once |

## Left out

- Panic assertions (assert_panic.go) are not modelled. They rest on Go's `defer`/`recover` unwinding and on `reflect.DeepEqual` over arbitrary payloads.
- `DeepEqual`/`NotDeepEqual` are not modelled. The tests call them, but their definitions are not part of this model.
- Message rendering (assert_fmt.go and the `%v`/`%d` arguments of `t.Errorf`) is not modelled. A failure records its format template or its constant text. The model keeps which message is recorded, not the rendered values.
- `t.Error` and `t.Errorf` are both modelled by `Testing.Reporter.Error`. The rest of the reporter is reduced to the failure log, including test names, `Failed()` and output.
- `t.Helper()` is left out. It only affects which stack frame a failure is attributed to.
- `reflect.TypeOf(value).Kind()` is replaced by the closed `Kind` datatype. Reflection kinds outside Ptr/Map/Slice/Chan/Func, including UnsafePointer and Interface, are `Other`, as the source's switch treats them. An `Other` value may hold a nil reference (a nil unsafe pointer), and it is still reported as not nil.
- Go's `==` on a `comparable` type parameter can panic at run time when interface operands hold incomparable dynamic values. The model uses Dafny equality on types that support it, so that panic is not modelled.
- Go's `comparable` equality is modelled by Dafny's `==`, which is an equivalence relation. Go's floating-point `==` is not reflexive: `NaN == NaN` is false, also inside structs and arrays. So `Equal` on two NaNs, `SliceContains` of NaN in `[NaN]`, and `SimilarSlice` on `[NaN]` and `[NaN]` fail in Go but pass in the model. In the last case each `m[v] += 1` inserts a fresh NaN key, and the lookup in `isEqualMap` never finds it. The members below therefore assume reflexive equality, and so do the assertions and pairs built on them.
- Equality.Equal, Equality.NotEqual: assume reflexive `==`; Go's NaN comparison is not modelled.
- Equality.AreEqualSlices: assumes reflexive element `==`; a NaN element makes Go report unequal slices.
- Equality.AreSimilarSlices: assumes reflexive element `==`; Go's count maps, with one key per NaN occurrence, are not modelled.
- Equality.IsEqualMap: assumes reflexive key and value `==`; NaN keys and values are not modelled.
- Collections.ContainsElement, Slices.ContainsElement, Containment.ContainsElement: assume reflexive element `==`; NaN is never found in Go.
- Collections.MapContains, Collections.MapNotContains, Maps.MapContains, Maps.MapNotContains, Maps.MapContainsKey, Maps.MapNotContainsKey, Containment.MapContains, Containment.MapNotContains: assume reflexive key and value `==`; NaN keys and values are not modelled.
- Go `int` width is not modelled. Lengths, expected lengths and counts are unbounded integers. The counts in `areSimilarSlices` are bounded by the slice length, so they cannot overflow in Go either.
- `Equality.IsEqualMap` models Go's map iteration order by choosing any unvisited key. Its result does not depend on that order.
- The capacity hints passed to `make` in `areSimilarSlices` are not modelled. They have no effect on the result.
- `NotEmptySlice`'s nil failure reads "Expected empty slice but got nil" in both revisions that define it. The model records that text as written.
