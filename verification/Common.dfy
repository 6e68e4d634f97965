/** What several parts share. */
module Common {

  datatype Option<+T> = None | Some(value: T)

  /** The next key of a walk over a map or set in arbitrary order. */
  method AnyOf<T(==)>(keys: set<T>) returns (key: T)
    requires keys != {}
    ensures key in keys
  {
    key :| key in keys;
  }
}
