/** The optional-value datatype used for values the source may lack:
    a stored token (`localStorage.getItem` gives a string or null),
    a decoded payload, a claim, a time value. */
module Wrappers {

  datatype Option<+T> = None | Some(value: T)
}
