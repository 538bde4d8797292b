/** A nullable column or a failed parse: `None` stands for JavaScript's `null` and `NaN`. */
module Wrappers {

  datatype Option<+T> = None | Some(value: T)
}
