/** The absent-value wrapper used wherever pandas or Python yields NaN or raises. */
module Wrappers {

  datatype Option<+T> = None | Some(value: T)
}
