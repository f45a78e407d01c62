/** Option and Result, used for the optional reference frame and for the
    error paths where cctv.py and vid.py raise an exception. */
module Wrappers {

  datatype Option<+T> = None | Some(value: T)

  datatype Result<+T, +E> = Ok(value: T) | Err(error: E)
}
