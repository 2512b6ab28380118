/** The optional-value datatype shared by the modules of this model. */
module Wrappers {

  /** `None` stands for JavaScript's `null`, `undefined` or `NaN`, depending on the use. */
  datatype Option<+T> = None | Some(value: T)
}
