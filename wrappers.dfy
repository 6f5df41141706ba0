/** The optional value used throughout the model: `None` stands for JavaScript's
    `NaN` (a failed `parseInt`) and for a `switch` case that yields `undefined`. */
module Wrappers {

  datatype Option<+T> = None | Some(value: T)
}
