/** The optional value used for every nullable cell: a missing CSV field, a value a
    coercing parser could not read (NaN / NaT), and SQL NULL. */
module Wrappers {

  datatype Option<+T> = None | Some(value: T)
}
