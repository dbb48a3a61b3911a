/** The optional-value datatype used wherever the scripts test an engine
    reference or a lookup result against null. */
module Wrappers {

  datatype Option<+T> = None | Some(value: T)

}
