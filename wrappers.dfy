/** The optional value returned by the browser's name prompt: `None` stands for `null` (cancelled). */
module Wrappers {

  datatype Option<+T> = None | Some(value: T)
}
