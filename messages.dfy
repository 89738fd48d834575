/** The failure messages the assertions record. A message with `%v` or `%d`
    verbs is kept as its format template: the rendering of the arguments is
    not modelled, only which message is recorded. */
module Messages {

  /** Recorded when a value differs from the expected one. */
  const Inequality := "Expected: %v. Actual: %v"
  /** Recorded when a value equals what it should differ from. */
  const Equality := "Expected to not equal: %v"

  const EmptySliceGotNil := "Expected empty slice but got nil"
  const EmptySliceGotLength := "Expected empty slice but got slice with length %d"
  const NotEmptySliceGotEmpty := "Expected non- empty slice but got empty slice"
  const SliceLengthMismatch := "Expected slice to have length of %d but got %d"
  const ElementNotFound := "Element %v could not be found in the slice %v"
  const ElementFound := "Element %v was not expected to be found in the slice %v"

  const EmptyMapGotNil := "Expected empty map but got nil"
  const EmptyMapGotLength := "Expected empty map but got map with length of %d"
  const NotEmptyMapGotNil := "Expected non-empty map but got nil"
  const NotEmptyMapGotEmpty := "Expected non-empty map but got empty map"
  const MapLengthMismatch := "Expected map to have length of %d but got %d"
  const KeyMissing := "The given map was expected to contain key %v but did not"
  const KeyPresent := "The given map was expected to not contain key %v but did"
  const KeyNotFound := "Key %v was not found in the map"
  const ValueMismatch := "Expected %v for key %v in the map but got %v"
  const PairFound := "Key %v and value %v was not expected to be found in the map"
}
