/** The optional value the lexer uses where the source uses `None`. */
module Wrappers {

  datatype Option<+T> = None | Some(value: T)
}
