/** An optional value: JavaScript's `T | null` in the gallery screen's state. */
module Wrappers {

  datatype Option<+T> = None | Some(value: T)

}
