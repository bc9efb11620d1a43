/** The optional value used wherever the programs test for something that may
    be absent (a parse that fails, an event without a `delta`). */
module Wrappers {

  datatype Option<+T> = None | Some(value: T)

}
