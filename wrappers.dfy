/** Result types shared by the utility modules. */
module Wrappers {

  datatype Option<T> = None | Some(value: T)

  /** The two failure conditions of the utilities: a value of a shape
      structured configuration cannot hold, and a key absent from every layer. */
  datatype Error = ConfigShapeError | KeyNotFound

  datatype Result<T> = Ok(value: T) | Err(error: Error)
}
