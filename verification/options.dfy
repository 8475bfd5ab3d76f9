/** The optional value used throughout the model. */
module Options {

  /** Rust's `Option`. On a host record it also stands for a pointer:
      `None` is the null pointer, `Some(r)` a readable record `r`. */
  datatype Option<+T> = None | Some(value: T)
}
