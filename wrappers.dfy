/** Failure-carrying result types shared by the other modules. */
module Wrappers {

  datatype Option<+T> = None | Some(value: T)

  datatype Result<+T, +E> = Ok(value: T) | Err(error: E)
}

/** The Python exceptions that the translation engine can raise and then swallow. */
module Exceptions {

  datatype Exception =
    | IndexError         // `args[0]` on an empty argument list
    | ZeroDivisionError  // `scale_value` on a range with `in_min == in_max`
}
