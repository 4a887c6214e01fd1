/** The optional-value datatype used throughout the model for Java's nullable references. */
module Wrappers {

  /** `None` stands for Java's `null`. */
  datatype Option<+T> = None | Some(value: T)
}
