/** The optional value used for the error paths of the model: `None` stands for
    an exception the source raises (and the caller does not catch). */
module Wrappers {

  datatype Option<T> = None | Some(value: T)

}
