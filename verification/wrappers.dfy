/** Option: `None` stands for JavaScript's `null` / an Invalid Date. */
module Wrappers {
  datatype Option<+T> = None | Some(value: T)
}
