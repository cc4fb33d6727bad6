/** An optional value: what a browser API hands back when a key may be absent. */
module Wrappers {

  datatype Option<+T> = None | Some(value: T)
}
