/** The optional value used for fields the components and the engine interface declare with `?` or `| null`. */
module Wrappers {

  datatype Option<+T> = None | Some(value: T)
}
