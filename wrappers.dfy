/**
 * Small value wrappers shared by every module of the model.
 */
module Wrappers {

  /** `Option<T>`: an absent or present value. */
  datatype Option<+T> = None | Some(value: T)

  /**
   * The outcome of a Rust call that can panic: either it returned a value,
   * or it panicked (`unwrap` on `None`, `panic!`, `todo!`) with a message.
   */
  datatype Outcome<+T> = Returned(value: T) | Panicked(message: string)
}
