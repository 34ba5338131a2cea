/** The Some/None wrapper used wherever the source returns or accepts `null`. */
module Wrappers {

  /** `None` stands for JavaScript's `undefined`, `null` or `NaN`, depending on the context. */
  datatype Option<+T> = None | Some(value: T)
}
