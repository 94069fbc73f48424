/** Failure-carrying results. The Python code signals failure by raising;
    the model returns the exception that would have been raised instead. */
module Wrappers {

  datatype Option<+T> = None | Some(value: T)

  /** The Python exceptions the modelled code can raise. */
  datatype Exception =
    | AssertionError      // a failed `assert` statement
    | ValueError          // tuple unpacking of a `str.split` result of the wrong size
    | LookupError         // SpooledBuffer.get of an unknown delivery tag
    | FileNotFoundError   // os.unlink / os.rename of a missing file
    | OverflowError       // int.to_bytes of a value that does not fit
    | DecodeError         // proton.Message.decode of bytes it cannot parse
    | NameError           // use of an undefined name
    | AttributeError      // call of a method the backend does not define
    | TypeError           // item assignment on a value that is not a dict

  datatype Result<+T> = Ok(value: T) | Err(error: Exception)

  datatype Outcome = Pass | Fail(error: Exception)
}
