/** Outcome types shared by the model.  An exception raised by the source is an
    `Err` carrying the exception's message (what `str(e)` would print). */
module Wrappers {

  datatype Option<+T> = None | Some(value: T)

  datatype Result<+T> = Ok(value: T) | Err(error: string)
}
