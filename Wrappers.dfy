/** An optional value: Python's `Optional[...]`, where `None` is the absent case. */
module Wrappers {

  datatype Option<+T> = None | Some(value: T)
}
