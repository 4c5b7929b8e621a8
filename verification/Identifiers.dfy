/** Identifiers are only ever compared, so their bytes do not matter here. */
module Identifiers {
  type Uuid = nat

  const NIL_UUID: Uuid := 0
}
