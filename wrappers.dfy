/** The Option datatype used wherever the JavaScript code gets `null` back
    (a regular expression that does not match) or NaN (a number that does
    not parse). */
module Wrappers {

  datatype Option<+T> = None | Some(value: T)
}
