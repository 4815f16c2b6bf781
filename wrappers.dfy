/** An optional value: `None` stands for a JavaScript value that is absent (undefined). */
module Wrappers {

  datatype Option<+T> = None | Some(value: T)
}
