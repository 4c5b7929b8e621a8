/** The optional value used for nullable columns, lookups that may miss and transactions that may not hold a lock. */
module Options {
  datatype Option<+T> = None | Some(value: T)
}
