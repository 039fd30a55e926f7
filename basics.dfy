/** Small value types shared by the other modules. */
module Basics {

  /** Python's `None` or a present value. */
  datatype Option<+T> = None | Some(value: T)

  /** One octet of a response body or of an encoded image. */
  newtype byte = x: int | 0 <= x < 256
}
