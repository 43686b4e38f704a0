/** A nullable .NET reference (`null` or a value) is an `Option`. */
module Wrappers {

  datatype Option<+T> = None | Some(value: T)

}
