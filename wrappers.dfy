/** The optional value used for C# nulls and for operations that throw. */
module Wrappers {

  datatype Option<+T> = None | Some(value: T)
}
