/** The optional-value datatype used by the partial decoders and the lexer. */
module Wrappers {

  datatype Option<+T> = None | Some(value: T)
}
