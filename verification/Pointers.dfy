/** Pointers are addresses; one of them points nowhere. */
module Pointers {
  const NULL: int := 0
}
