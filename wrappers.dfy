/** An optional value: the model's rendering of a TypeScript field or
    variable that may be `undefined`. */
module Wrappers {

  datatype Option<+T> = None | Some(value: T)
}
