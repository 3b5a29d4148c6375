/** The optional value the regular-expression matches and the analyzer's
    error path return. */
module Wrappers {

  datatype Option<+T> = None | Some(value: T)
}
