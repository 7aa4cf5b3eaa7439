/** The optional-value datatype used for decoder results and error returns. */
module Wrappers {

  datatype Option<+T> = None | Some(value: T)

}
