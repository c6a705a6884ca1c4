/** The optional-value wrapper used throughout the model (a C# reference that may be null). */
module Wrappers {

  datatype Option<+T> = None | Some(value: T)

}
